/** The actor system in coarse steps (src/skynet.cpp, src/skynet.h): push_message, kill, the beginning,
    each delivery and the end of a dispatch, and the two halves of spawn are atomic, and any of them
    may come between the others. */
module ActorSystem {
  import opened Wrappers
  import opened Numbers
  import opened Dispatch
  import opened Mailbox
  import opened Ledger
  import opened ActorQueue
  import opened ActorWorld

  /** How many pushes a push may still cause: an error reply can overload its receiver, an overloaded
      actor warns the logger, and the logger can overload once itself. */
  function Rank(w: World, dest: nat, m: Msg): nat {
    if !Accepts(w.queues, dest) then (if Bounceable(m) then 3 else 0)
    else if !Overloads(w.queues[dest]) then 0
    else if dest != LoggerOf(w) then 2
    else 1
  }

  /** The nested push of a warning is lower: the threshold has doubled. */
  lemma WarningRank(w: World, x: World, p: Post, busy: set<nat>)
    requires Sound(w, busy) && Accepts(w.queues, p.dest) && Overloads(w.queues[p.dest])
    requires x == AfterFiling(w, p)
    ensures Rank(x, LoggerOf(w), Warning(p.dest)) < Rank(w, p.dest, p.item.msg)
  {
    assert Fine(w, p.dest, busy);
    FiledCore(w.queues[p.dest], p.item, LoggerOf(w) != 0, DrainedAt(w.discarded, p.dest));
  }

  /** The queue of `h` as schedule_queue leaves it. */
  function AfterSchedule(w: World, h: nat): World
    requires h in w.queues
  {
    w.(queues := w.queues[h := Scheduled(w.queues[h])])
  }

  lemma ScheduleKeeps(w: World, x: World, h: nat, busy: set<nat>, unfreed: multiset<nat>)
    requires Sound(w, busy + {h}) && Books(w, [], unfreed) && Accepts(w.queues, h)
    requires x == AfterSchedule(w, h)
    ensures Sound(x, busy) && Books(x, [], unfreed) && Extends(w, x, {})
  {
    assert Fine(w, h, busy + {h});
    ScheduledCore(w.queues[h], DrainedAt(w.discarded, h));
    Replaced(w, x, h, Scheduled(w.queues[h]), busy + {h}, busy);
    OneGrown(w, x, h, Scheduled(w.queues[h]));
    BooksKept(w, x, h, Scheduled(w.queues[h]), [], unfreed);
  }

  /** What a push does for its own message: it is the next entry of the ledger, it is filed behind what
      `dest` has accepted or else discarded, and where nothing follows from it that is all.  A warning
      that follows is the next entry, and it is lost when the logger is not there. */
  ghost predicate Pushed(w: World, x: World, p: Post) {
    && w.sent + [p] <= x.sent
    && if Accepts(w.queues, p.dest) then
         && p.dest in x.queues && w.queues[p.dest].accepted + [p.item] <= x.queues[p.dest].accepted
         && (!Overloads(w.queues[p.dest]) ==> x == AfterSchedule(AfterFiling(w, p), p.dest))
         && w.sent + [p] + WarningDue(w, p) <= x.sent && Warned(w, x, p)
         && (!Accepts(w.queues, LoggerOf(w)) ==> w.discarded + Refusals(WarningDue(w, p)) <= x.discarded)
       else w.discarded + [Refusal(p)] <= x.discarded && Bounced(w, x, p)
  }

  /** A message that fills the mailbox up to the threshold makes an error (7) to the logger, if there is one, the
      next push, in the name of the overloaded actor. */
  ghost predicate Warned(w: World, x: World, p: Post)
    requires p.dest in w.queues
  {
    |w.queues[p.dest].mailbox| + 1 >= w.queues[p.dest].threshold && LoggerOf(w) != 0 ==>
      w.sent + [p] + [Post(LoggerOf(w), Item(p.item.producer, Msg(p.dest, 0, 7, None)), Overload)] <= x.sent
  }

  /** A refused request is answered by an error (7) to its source right away; a response (1), an error, and
      what has no session or no source are not. */
  ghost predicate Bounced(w: World, x: World, p: Post) {
    var m := p.item.msg;
    if m.session != 0 && m.source != 0 && m.kind != 1 && m.kind != 7
    then w.sent + [p] + [Post(m.source, Item(p.item.producer, Msg(0, m.session, 7, None)), Reply)] <= x.sent
    else x.sent == w.sent + [p] && x.discarded == w.discarded + [Refusal(p)]
  }

  function Refusals(posts: seq<Post>): seq<Discard> {
    seq(|posts|, i requires 0 <= i < |posts| => Refusal(posts[i]))
  }

  class System {
    var queues: map<nat, Queue>
    var logger: nat                  // logger_handle_
    var named: nat                   // names_["logger"]
    var sent: seq<Post>
    var asked: seq<Post>
    var reported: seq<Post>
    var discarded: seq<Discard>
    var freed: seq<nat>

    function W(): World
      reads this
    {
      World(queues, logger, named, sent, asked, reported, discarded, freed)
    }

    constructor ()
      ensures Good(W()) && queues == map[]
    {
      queues, logger, named := map[], 0, 0;
      sent, asked, reported, discarded, freed := [], [], [], [], [];
      new;
      Close(W(), [], multiset{});
    }

    /** free_owned_message_data. */
    method FreeOwned(m: Msg)
      modifies this`freed
      ensures W() == old(W()).(freed := old(freed) + if m.buffer.Some? then [m.buffer.value] else [])
    {
      if m.buffer.Some? {
        freed := freed + [m.buffer.value];
      } else {
        assert freed + [] == freed;
      }
    }

    /** schedule_queue and enqueue_global. */
    method Schedule(h: nat, ghost busy: set<nat>, ghost unfreed: multiset<nat>)
      requires Sound(W(), busy + {h}) && Books(W(), [], unfreed) && Accepts(queues, h)
      modifies this`queues
      ensures W() == AfterSchedule(old(W()), h)
      ensures Sound(W(), busy) && Books(W(), [], unfreed) && Extends(old(W()), W(), {})
    {
      var q := queues[h];
      if q.initialized && q.state == 0 {
        queues := queues[h := q.(state := 1, tokens := q.tokens + 1)];
      } else {
        assert queues == queues[h := q];
      }
      ScheduleKeeps(old(W()), W(), h, busy, unfreed);
    }

    /** push_message, by thread `me`.  The push is recorded first; its post was due and nothing is due
        afterwards. */
    method Push(dest: nat, msg: Msg, me: nat, cause: Cause, ghost busy: set<nat>,
                ghost unfreed: multiset<nat>)
      requires Sound(W(), busy) && Books(W(), [Post(dest, Item(me, msg), cause)], unfreed)
      modifies this
      ensures Sound(W(), busy) && Books(W(), [], unfreed) && Extends(old(W()), W(), {})
      ensures Pushed(old(W()), W(), Post(dest, Item(me, msg), cause))
      decreases Rank(W(), dest, msg), 1
    {
      sent := sent + [Post(dest, Item(me, msg), cause)];
      if !Accepts(queues, dest) {
        Refuse(old(W()), dest, msg, me, cause, busy, unfreed);
        return;
      }
      ghost var p := Post(dest, Item(me, msg), cause);
      var q := queues[dest];
      var full := Overloads(q);
      if full && logger == 0 {
        logger := named;
      }
      queues := queues[dest := Filed(q, Item(me, msg), logger != 0)];
      if full && logger != 0 {
        reported := reported + [Post(logger, Item(me, Warning(dest)), Overload)];
      } else {
        assert reported + [] == reported;
      }
      ghost var mid := W();
      FilingSound(old(W()), mid, p, busy);
      FilingBooks(old(W()), mid, p, unfreed);
      if full && logger != 0 {
        WarningRank(old(W()), mid, p, busy);
        Push(logger, Warning(dest), me, Overload, busy + {dest}, unfreed);
      } else {
        ExtendsSelf(mid, {});
      }
      ghost var last := W();
      assert Unharmed(mid, last, dest);
      WarningFollows(old(W()), mid, last, p);
      Schedule(dest, busy, unfreed);
      FiledAll(old(W()), mid, last, W(), p);
    }

    /** The part of push_message for an actor that is not there: discard, answer, free. */
    method Refuse(ghost w: World, dest: nat, msg: Msg, me: nat, cause: Cause, ghost busy: set<nat>,
                  ghost unfreed: multiset<nat>)
      requires Sound(w, busy) && Books(w, [Post(dest, Item(me, msg), cause)], unfreed)
      requires !Accepts(w.queues, dest)
      requires W() == w.(sent := w.sent + [Post(dest, Item(me, msg), cause)])
      modifies this
      ensures Sound(W(), busy) && Books(W(), [], unfreed) && Extends(w, W(), {})
      ensures Pushed(w, W(), Post(dest, Item(me, msg), cause))
      decreases Rank(w, dest, msg), 0
    {
      ghost var p := Post(dest, Item(me, msg), cause);
      discarded := discarded + [Discard(dest, false, Item(me, msg), me)];
      ghost var mid := W();
      RefusalSound(w, mid, p, busy);
      RefusalBooks(w, mid, p, unfreed);
      if Bounceable(msg) {
        Push(msg.source, ErrorReply(msg.session), me, Reply, busy, unfreed + BufferOf(msg));
      } else {
        ExtendsSelf(mid, {});
      }
      ghost var last := W();
      ExtendsChain(w, mid, last, {});
      FreeOwned(msg);
      FreeKeeps(last, W(), msg, busy, unfreed);
      ExtendsByFree(w, last, W(), {});
    }

    /** send: a message from outside, that is from a handler, the network or a timer. */
    method Send(dest: nat, msg: Msg, me: nat)
      requires Good(W())
      modifies this
      ensures Good(W()) && asked == old(asked) + [Post(dest, Item(me, msg), Asked)]
      ensures Extends(old(W()).(asked := asked), W(), {})
      ensures Pushed(old(W()).(asked := asked), W(), Post(dest, Item(me, msg), Asked))
    {
      var p := Post(dest, Item(me, msg), Asked);
      asked := asked + [p];
      AskedDue(old(W()), W(), p);
      Push(dest, msg, me, Asked, {}, multiset{});
    }

    /** drain_queue by thread `me`: empty the mailbox of an actor that no longer accepts, each producing
        thread's items in order, answering requests. */
    method Drain(h: nat, me: nat, ghost busy: set<nat>) returns (ghost gone: seq<Item>)
      requires Sound(W(), busy) && Books(W(), [], multiset{})
      requires h in busy && h in queues && !queues[h].accepting
      modifies this
      ensures Sound(W(), busy) && Books(W(), [], multiset{}) && Extends(old(W()), W(), {h})
      ensures queues[h] == old(queues[h]).(mailbox := []) && Answered(old(W()), W())
      ensures Legal(old(queues[h].mailbox), gone)
      ensures DrainedAt(discarded, h) == DrainedAt(old(discarded), h) + gone
    {
      DrainAll(h, me, busy);
      AllAnswered(old(W()), W(), {h});
      gone := DrainedAt(discarded, h)[|DrainedAt(old(discarded), h)|..];
      DrainedLegally(old(W()), W(), h, busy, gone);
    }

    /** The loop of drain_queue. */
    method DrainAll(h: nat, me: nat, ghost busy: set<nat>)
      requires Sound(W(), busy) && Books(W(), [], multiset{})
      requires h in busy && h in queues && !queues[h].accepting
      modifies this
      ensures Sound(W(), busy) && Books(W(), [], multiset{}) && Extends(old(W()), W(), {h})
      ensures queues[h] == old(queues[h]).(mailbox := [])
      ensures DrainedAt(old(discarded), h) <= DrainedAt(discarded, h)
    {
      ExtendsSelf(W(), {h});
      while queues[h].mailbox != []
        invariant Sound(W(), busy) && Books(W(), [], multiset{}) && Extends(old(W()), W(), {h})
        invariant queues[h] == old(queues[h]).(mailbox := queues[h].mailbox)
        invariant DrainedAt(old(discarded), h) <= DrainedAt(discarded, h)
        decreases |queues[h].mailbox|
      {
        ghost var before := W();
        var i := DrainOne(h, me, busy);
        ExtendsChain(old(W()), before, W(), {h});
      }
    }

    method DrainOne(h: nat, me: nat, ghost busy: set<nat>) returns (i: nat)
      requires Sound(W(), busy) && Books(W(), [], multiset{})
      requires h in busy && h in queues && !queues[h].accepting && queues[h].mailbox != []
      modifies this
      ensures Sound(W(), busy) && Books(W(), [], multiset{}) && Extends(old(W()), W(), {h})
      ensures FirstOf(old(queues[h].mailbox), i) && queues[h] == Taken(old(queues[h]), i)
      ensures DrainedAt(discarded, h) == DrainedAt(old(discarded), h) + [old(queues[h].mailbox[i])]
    {
      assert FirstOf(queues[h].mailbox, 0);
      i :| 0 <= i < |queues[h].mailbox| && FirstOf(queues[h].mailbox, i);
      var x := queues[h].mailbox[i];
      queues := queues[h := Taken(queues[h], i)];
      discarded := discarded + [Discard(h, true, x, me)];
      ghost var mid := W();
      DrainSound(old(W()), mid, h, i, me, busy);
      DrainBooks(old(W()), mid, h, i, me, multiset{});
      OneMoreDiscard(old(discarded), Discard(h, true, x, me), h);
      if Bounceable(x.msg) {
        Push(x.msg.source, ErrorReply(x.msg.session), me, Reply, busy, multiset{} + BufferOf(x.msg));
        assert Unharmed(mid, W(), h);
      } else {
        ExtendsSelf(mid, {});
      }
      ghost var last := W();
      ExtendsMore(mid, last, {h});
      ExtendsChain(old(W()), mid, last, {h});
      FreeOwned(x.msg);
      FreeKeeps(last, W(), x.msg, busy, multiset{});
      ExtendsByFree(old(W()), last, W(), {h});
    }

    /** The last steps of an actor that no longer accepts and is not being dispatched. */
    method Retire(h: nat, me: nat)
      requires Sound(W(), {h}) && Books(W(), [], multiset{})
      requires h in queues && !queues[h].accepting && !queues[h].running
      modifies this
      ensures Good(W()) && Extends(old(W()), W(), {h})
      ensures queues[h] == Ended(old(queues[h])) && queues[h].destroys == 1
    {
      ghost var gone := Drain(h, me, {h});
      ghost var last := W();
      Destroy(h);
      ExtendsBefore(old(W()), last, W(), h);
    }

    /** destroy_actor and clear_queue_owner. */
    method Destroy(h: nat)
      requires Sound(W(), {h}) && Books(W(), [], multiset{}) && h in queues
      requires !queues[h].accepting && !queues[h].running && queues[h].mailbox == []
      modifies this`queues
      ensures Good(W()) && queues == old(queues)[h := Gone(old(queues[h]))] && queues[h].destroys == 1
    {
      assert Fine(W(), h, {h});
      GoneCore(queues[h], DrainedAt(discarded, h));
      queues := queues[h := Gone(queues[h])];
      Replaced(old(W()), W(), h, queues[h], {h}, {});
      BooksKept(old(W()), W(), h, queues[h], [], multiset{});
    }

    /** kill.  An idle actor is drained and destroyed at once; of a dispatching one nothing changes but
        that it accepts no more, and the rest is left to the end of its dispatch; a handle that is not
        registered is left alone. */
    method Kill(h: nat, me: nat)
      requires Good(W())
      modifies this
      ensures Good(W()) && Answered(old(W()), W())
      ensures !Accepts(old(queues), h) ==> W() == old(W())
      ensures LoggerOf(W()) == LoggerOf(old(W()))
      ensures Accepts(old(queues), h) ==>
                var start := Unlogged(old(W()), h);
                && Extends(start, W(), {h})
                && (old(queues[h].running) ==>
                      W() == start.(queues := old(queues)[h := Doomed(old(queues[h]), true)]))
                && (!old(queues[h].running) ==> queues[h] == Ended(Doomed(old(queues[h]), true)))
                && (old(queues[h].running) ==> logger == if old(logger) == h then 0 else old(logger))
                && !queues[h].accepting && queues[h].releasing && queues[h].destroyRequested
                && (if old(queues[h].running) then queues[h].mailbox == old(queues[h].mailbox) && queues[h].owner
                    else queues[h].mailbox == [] && !queues[h].owner && queues[h].destroys == 1)
    {
      if !Accepts(queues, h) {
        NothingToAnswer(W());
        return;
      }
      if logger == h {
        logger := 0;
      }
      ghost var start := W();
      LoggerSet(old(W()), start);
      assert Fine(start, h, {});
      queues := queues[h := Doomed(queues[h], true)];
      DoomedCore(start.queues[h], true, DrainedAt(discarded, h));
      if queues[h].depth == 0 {
        Replaced(start, W(), h, queues[h], {}, {h});
        BooksKept(start, W(), h, queues[h], [], multiset{});
        ghost var mid := W();
        Retire(h, me);
        ExtendsAfter(start, mid, W(), h);
      } else {
        Stepped(start, W(), h, queues[h]);
      }
      AllAnswered(start, W(), {h});
    }

    /** register_name("logger", h). */
    method RegisterLogger(h: nat)
      requires Good(W())
      modifies this`logger, this`named
      ensures Good(W()) && logger == h && named == h
    {
      named := h;
      logger := h;
      LoggerSet(old(W()), W());
    }

    /** error, as called from a handler, a failed initialization or the monitor: the text goes to the
        logger if there is one, and else to stderr. */
    method Error(source: nat, me: nat)
      requires Good(W())
      modifies this
      ensures Good(W())
      ensures
        var start := old(W()).(logger := LoggerOf(old(W())));
        var p := Post(start.logger, Item(me, Warning(source)), Asked);
        if start.logger == 0 then W() == old(W())
        else asked == old(asked) + [p] && Pushed(start.(asked := asked), W(), p)
    {
      if logger == 0 {
        logger := named;
      }
      LoggerSet(old(W()), W());
      if logger != 0 {
        Send(logger, Warning(source), me);
      }
    }

    /** The start of dispatch_queue, by a worker that has taken `h` from the global queue.  A token left
        over from before a kill starts nothing.  The other early exits of the code cannot be taken
        here: a queued actor has its owner and is not releasing. */
    method Begin(h: nat) returns (started: bool)
      requires Good(W()) && h in queues && queues[h].tokens > 0
      modifies this`queues
      ensures Good(W())
      ensures started == (old(queues[h].state) == 1)
      ensures var q := old(queues[h]).(tokens := old(queues[h].tokens) - 1);
              queues == old(queues)[h := if started then q.(state := 2, depth := q.depth + 1, running := true)
                                  else q]
      ensures started ==> queues[h].accepting && queues[h].owner && queues[h].destroys == 0
      ensures started ==> !old(queues[h].running)
    {
      var q := queues[h];
      assert Fine(W(), h, {});
      q := q.(tokens := q.tokens - 1);
      started := q.state == 1;
      if started {
        q := q.(state := 2, depth := q.depth + 1, running := true);
      }
      queues := queues[h := q];
      Stepped(old(W()), W(), h, q);
    }

    /** One turn of the delivery loop, with item `i` what try_dequeue yields; false when the actor is
        going away, and then the message stays where it is. */
    method Deliver(h: nat, i: nat) returns (delivered: bool)
      requires Good(W()) && h in queues && queues[h].state == 2 && FirstOf(queues[h].mailbox, i)
      modifies this`queues
      ensures Good(W())
      ensures delivered == old(queues[h].accepting)
      ensures queues == if delivered then old(queues)[h := Delivering(old(queues[h]), i)]
                        else old(queues)
    {
      var q := queues[h];
      assert Fine(W(), h, {});
      if q.destroyRequested || q.releasing {
        return false;
      }
      DeliveringCore(q, i, DrainedAt(discarded, h));
      queues := queues[h := Delivering(q, i)];
      Stepped(old(W()), W(), h, queues[h]);
      return true;
    }

    /** The end of dispatch_queue.  When the threshold is reset, `before` is the number of warnings
        pushed about the actor so far. */
    method End(h: nat, me: nat)
      requires Good(W()) && h in queues && queues[h].running
      modifies this
      ensures Good(W()) && Extends(old(W()), W(), {h}) && Answered(old(W()), W())
      ensures if old(queues[h].accepting)
              then W() == old(W()).(queues := old(queues)[h := Finished(old(queues[h]))])
              else queues[h] == Ended(Left(old(queues[h]))) && queues[h].destroys == 1
      ensures queues[h].accepting && queues[h].state == 0 ==> queues[h].before == CountAbout(sent, h)
      ensures old(queues[h].accepting) ==>
                && queues[h].mailbox == old(queues[h].mailbox) && queues[h].depth == 0 && !queues[h].running
                && (if queues[h].mailbox != [] then queues[h].state == 1 && queues[h].tokens == 1
                    else queues[h].state == 0 && queues[h].tokens == 0
                         && queues[h].threshold == 1024 && queues[h].peak == 0)
    {
      var q := queues[h];
      assert Fine(W(), h, {});
      if q.releasing || q.destroyRequested {
        EndReleased(h, me);
      } else {
        FinishedCore(q, DrainedAt(discarded, h));
        queues := queues[h := Finished(q)];
        Stepped(old(W()), W(), h, queues[h]);
        WarningsPushed(W(), h);
      }
      AllAnswered(old(W()), W(), {h});
    }

    /** The worker drains, stores 0, lowers the depth and destroys the actor, in this order. */
    method EndReleased(h: nat, me: nat)
      requires Good(W()) && h in queues && queues[h].running && !queues[h].accepting
      modifies this
      ensures Good(W()) && Extends(old(W()), W(), {h})
      ensures queues[h] == Ended(Left(old(queues[h]))) && queues[h].destroys == 1
    {
      SoundMore(W(), {}, {h});
      ghost var gone := Drain(h, me, {h});
      ghost var last := W();
      assert Fine(last, h, {h});
      LeftCore(queues[h], DrainedAt(discarded, h));
      queues := queues[h := Left(queues[h])];
      Replaced(last, W(), h, queues[h], {h}, {h});
      BooksKept(last, W(), h, queues[h], [], multiset{});
      ExtendsBefore(old(W()), last, W(), h);
      ghost var left := W();
      Destroy(h);
      ExtendsBefore(old(W()), left, W(), h);
    }

    /** The first half of spawn: the queue is registered before the actor is initialized. */
    method Register(h: nat)
      requires Good(W()) && h !in queues
      modifies this`queues
      ensures Good(W()) && queues == old(queues)[h := NEW_QUEUE]
    {
      queues := queues[h := NEW_QUEUE];
      NewQueueGood(old(W()), W(), h);
    }

    /** The second half of spawn, after on_init has returned or failed.  The actor may have received
        messages, or been killed, in between. */
    method Initialized(h: nat, ok: bool, me: nat)
      requires Good(W()) && h in queues && !queues[h].initialized
      modifies this
      ensures Good(W()) && Extends(old(W()), W(), {h}) && Answered(old(W()), W())
      ensures ok ==> W() == old(W()).(queues := old(queues)[h := Opened(old(queues[h]))])
      ensures ok && queues[h].accepting && queues[h].mailbox != [] ==> queues[h].state == 1
      ensures !ok ==> queues[h] == Ended(Doomed(old(queues[h]), false)) && queues[h].destroys == 1
    {
      var q := queues[h];
      assert Fine(W(), h, {});
      if ok {
        q := q.(initialized := true);
        if |q.mailbox| > 0 {
          ScheduledCore(q, DrainedAt(discarded, h));
          q := Scheduled(q);
        }
        assert q == Opened(old(queues[h]));
        queues := queues[h := q];
        Stepped(old(W()), W(), h, q);
      } else {
        DoomedCore(q, false, DrainedAt(discarded, h));
        queues := queues[h := Doomed(q, false)];
        Replaced(old(W()), W(), h, queues[h], {}, {h});
        BooksKept(old(W()), W(), h, queues[h], [], multiset{});
        ghost var mid := W();
        Retire(h, me);
        ExtendsAfter(old(W()), mid, W(), h);
      }
      AllAnswered(old(W()), W(), {h});
    }

    /** A whole dispatch with nothing in between: exactly the batch is delivered, each thread's items in
        order, and the actor is queued again if anything is left. */
    method Turn(h: nat, weight: int, me: nat) returns (ghost taken: seq<Item>)
      requires Good(W()) && Accepts(queues, h) && queues[h].state == 1 && -1 <= weight <= 2
      modifies this
      ensures Good(W()) && Extends(old(W()), W(), {h}) && Accepts(queues, h)
      ensures var n := |old(queues[h].mailbox)|;
              |taken| == (if n == 0 then 0 else Batch(weight, n)) && |queues[h].mailbox| == n - |taken|
      ensures queues[h].accepted == old(queues[h].accepted)
      ensures queues[h].delivered == old(queues[h].delivered) + taken
      ensures Shuffle(old(queues[h].mailbox), taken + queues[h].mailbox)
      ensures queues[h].state == if queues[h].mailbox == [] then 0 else 1
    {
      assert Fine(W(), h, {});
      var started := Begin(h);
      ghost var q := queues[h];
      taken := DeliverBatch(h, Batch(weight, |queues[h].mailbox|));
      MovedCount(q, queues[h], taken);
      ghost var mid := W();
      End(h, me);
      SetTwice(old(queues), h, q, mid.queues[h]);
      ExtendsAfter(old(W()), mid, W(), h);
    }

    /** The delivery loop, up to `batch` messages. */
    method DeliverBatch(h: nat, batch: nat) returns (ghost taken: seq<Item>)
      requires Good(W()) && Accepts(queues, h) && queues[h].state == 2
      modifies this`queues
      ensures Good(W()) && h in queues && queues == old(queues)[h := queues[h]]
      ensures Moved(old(queues[h]), queues[h], taken)
      ensures var n := |old(queues[h].mailbox)|; |taken| == if n < batch then n else batch
    {
      taken := [];
      var count := 0;
      MovedNone(queues[h]);
      while count < batch && queues[h].mailbox != []
        invariant Good(W()) && count <= batch && h in queues && |taken| == count
        invariant Moved(old(queues[h]), queues[h], taken)
        invariant queues == old(queues)[h := queues[h]]
      {
        assert FirstOf(queues[h].mailbox, 0);
        var i :| 0 <= i < |queues[h].mailbox| && FirstOf(queues[h].mailbox, i);
        ghost var q := queues[h];
        var delivered := Deliver(h, i);
        MovedNext(old(queues[h]), q, taken, i);
        SetTwice(old(queues), h, q, queues[h]);
        taken := taken + [q.mailbox[i]];
        count := count + 1;
      }
      MovedCount(old(queues[h]), queues[h], taken);
    }

    /** With no new arrivals a backlog is gone after exactly the number of turns computed in module
        Dispatch, delivered in one of the orders that keep each thread's. */
    method RunDown(h: nat, weight: int, me: nat) returns (turns: nat, ghost taken: seq<Item>)
      requires Good(W()) && Accepts(queues, h) && queues[h].state == 1 && -1 <= weight <= 2
      requires queues[h].mailbox != []
      modifies this
      ensures Good(W()) && h in queues && queues[h].mailbox == []
      ensures turns == Turns(weight, |old(queues[h].mailbox)|)
      ensures queues[h].delivered == old(queues[h].delivered) + taken
      ensures Legal(old(queues[h].mailbox), taken)
    {
      turns := TurnAll(h, weight, me);
      taken := queues[h].delivered[|old(queues[h].delivered)|..];
      DeliveredLegally(old(W()), W(), h, taken);
    }

    /** One dispatch after another until the mailbox is empty. */
    method TurnAll(h: nat, weight: int, me: nat) returns (turns: nat)
      requires Good(W()) && Accepts(queues, h) && queues[h].state == 1 && -1 <= weight <= 2
      requires queues[h].mailbox != []
      modifies this
      ensures Good(W()) && Accepts(queues, h) && queues[h].mailbox == []
      ensures turns == Turns(weight, |old(queues[h].mailbox)|)
      ensures queues[h].accepted == old(queues[h].accepted)
      ensures old(queues[h].delivered) <= queues[h].delivered
    {
      turns := 0;
      while queues[h].mailbox != []
        invariant Good(W()) && Accepts(queues, h)
        invariant queues[h].state == if queues[h].mailbox == [] then 0 else 1
        invariant turns + Turns(weight, |queues[h].mailbox|)
                  == Turns(weight, |old(queues[h].mailbox)|)
        invariant queues[h].accepted == old(queues[h].accepted)
        invariant old(queues[h].delivered) <= queues[h].delivered
        decreases |queues[h].mailbox|
      {
        ghost var more := Turn(h, weight, me);
        turns := turns + 1;
      }
    }
  }

  /** What was drained came out in a possible order. */
  lemma DrainedLegally(w: World, x: World, h: nat, busy: set<nat>, gone: seq<Item>)
    requires Sound(w, busy) && Sound(x, busy) && h in w.queues && h in x.queues
    requires x.queues[h] == w.queues[h].(mailbox := [])
    requires DrainedAt(w.discarded, h) <= DrainedAt(x.discarded, h)
    requires gone == DrainedAt(x.discarded, h)[|DrainedAt(w.discarded, h)|..]
    ensures Legal(w.queues[h].mailbox, gone)
    ensures DrainedAt(x.discarded, h) == DrainedAt(w.discarded, h) + gone
  {
    var q, drained := w.queues[h], DrainedAt(w.discarded, h);
    assert Fine(w, h, busy) && Fine(x, h, busy);
    assert DrainedAt(x.discarded, h) == drained + gone;
    assert q.delivered + (drained + gone) + [] == q.delivered + drained + gone;
    ShuffleCancel(q.accepted, q.delivered + drained, q.mailbox, gone);
    LegalIff(q.mailbox, gone);
  }

  /** So was what was delivered while nothing arrived. */
  lemma DeliveredLegally(w: World, x: World, h: nat, taken: seq<Item>)
    requires Good(w) && Good(x) && Accepts(w.queues, h) && Accepts(x.queues, h)
    requires x.queues[h].accepted == w.queues[h].accepted && x.queues[h].mailbox == []
    requires x.queues[h].delivered == w.queues[h].delivered + taken
    ensures Legal(w.queues[h].mailbox, taken)
  {
    var q, r := w.queues[h], x.queues[h];
    assert Fine(w, h, {}) && Fine(x, h, {});
    assert q.delivered + [] + q.mailbox == q.delivered + q.mailbox;
    assert r.delivered + [] + [] == q.delivered + taken;
    ShuffleCancel(q.accepted, q.delivered, q.mailbox, taken);
    LegalIff(q.mailbox, taken);
  }

  lemma SetTwice(m: map<nat, Queue>, h: nat, q: Queue, r: Queue)
    ensures m[h := q][h := r] == m[h := r]
  {
  }

  lemma MovedNone(q: Queue)
    ensures Moved(q, q, [])
  {
    assert q.delivered + [] == q.delivered && [] + q.mailbox == q.mailbox;
  }

  // ----- Who is answered ------------------------------------------------------------------------------

  /** Since `w`, nothing was pushed but one error for each request discarded since, and warnings. */
  ghost predicate Answered(w: World, x: World) {
    && w.sent <= x.sent && w.discarded <= x.discarded
    && (exists at :: Matched(x.sent[|w.sent|..], x.discarded[|w.discarded|..], at))
    && OfCause(x.sent[|w.sent|..], Asked) == []
  }

  lemma AllAnswered(w: World, x: World, but: set<nat>)
    requires Books(w, [], multiset{}) && Books(x, [], multiset{}) && Extends(w, x, but)
    ensures Answered(w, x)
  {
    Open(w, [], multiset{});
    Open(x, [], multiset{});
    var posts, gone := x.sent[|w.sent|..], x.discarded[|w.discarded|..];
    assert x.sent == w.sent + posts && x.discarded == w.discarded + gone;
    assert w.sent + [] == w.sent && x.sent + [] == x.sent;
    OfCauseAppend(w.sent, posts, Reply);
    OfCauseAppend(w.sent, posts, Asked);
    RepliesAppend(w.discarded, gone);
    SameSuffix(Replies(w.discarded), OfCause(posts, Reply), Replies(gone));
    SameSuffix(w.asked, OfCause(posts, Asked), []);
    var at := MatchReplies(posts, gone);
  }

  lemma SameSuffix(a: seq<Post>, b: seq<Post>, c: seq<Post>)
    requires a + b == a + c || a + b == a + c + []
    ensures b == c
  {
    assert (a + b)[|a|..] == b && (a + c)[|a|..] == c;
  }

  lemma NothingToAnswer(w: World)
    ensures Answered(w, w)
  {
    assert w.sent[|w.sent|..] == [] && w.discarded[|w.discarded|..] == [];
    assert Matched([], [], map[]);
  }

  lemma NewQueueGood(w: World, x: World, h: nat)
    requires Good(w) && h !in w.queues && x == w.(queues := w.queues[h := NEW_QUEUE])
    ensures Good(x)
  {
    NewQueueFine(w, x, h);
    forall k
      ensures Fine(x, k, {})
    {
      if k != h {
        assert Fine(w, k, {});
      }
    }
    NewQueueBooks(w, x, h);
  }

  lemma NewQueueFine(w: World, x: World, h: nat)
    requires Sound(w, {}) && h !in w.queues && x == w.(queues := w.queues[h := NEW_QUEUE])
    ensures Fine(x, h, {})
  {
    assert DrainedAt(w.discarded, h) == [];
    assert Pow2(0) == 1;
  }

  lemma NewQueueBooks(w: World, x: World, h: nat)
    requires Books(w, [], multiset{}) && h !in w.queues && x == w.(queues := w.queues[h := NEW_QUEUE])
    ensures Books(x, [], multiset{})
  {
    Open(w, [], multiset{});
    forall k
      ensures SentTo(x.sent, k) == AcceptedAt(x.queues, k) + RefusedAt(x.discarded, k)
      ensures CountAbout(x.reported, k) == ReportsOf(x.queues, k)
    {
      assert AcceptedAt(x.queues, k) == AcceptedAt(w.queues, k);
      assert ReportsOf(x.queues, k) == ReportsOf(w.queues, k);
    }
    Close(x, [], multiset{});
  }

  // ----- Warnings -------------------------------------------------------------------------------------

  lemma WarningsPushed(w: World, h: nat)
    requires Good(w) && h in w.queues
    ensures CountAbout(w.sent, h) == w.queues[h].before + w.queues[h].reports
  {
    Open(w, [], multiset{});
    assert w.sent + [] == w.sent;
    WarningsOfCause(w.sent, h);
    assert CountAbout(w.reported, h) == ReportsOf(w.queues, h);
  }

  /** The number of warnings pushed about an actor since its threshold was last reset is exactly
      floor(log2(peak / 1024)) + 1, or 0 below 1024, when there was a logger all along. */
  lemma WarningsCount(w: World, h: nat, j: nat)
    requires Good(w) && h in w.queues && w.queues[h].heard
    ensures
      var q := w.queues[h];
      var pushed := CountAbout(w.sent, h) - q.before;
      && (q.peak < 1024 ==> pushed == 0)
      && (1024 * Pow2(j) <= q.peak < 1024 * Pow2(j + 1) ==> pushed == j + 1)
  {
    WarningsPushed(w, h);
    assert Fine(w, h, {});
    Doublings(w.queues[h], j);
  }

  // ----- Where a message is ---------------------------------------------------------------------------

  /** Between steps, an item that was accepted once is in exactly one of three places: waiting,
      delivered, or drained. */
  lemma InExactlyOnePlace(w: World, h: nat, x: Item)
    requires Good(w) && h in w.queues
    ensures multiset(w.queues[h].accepted)[x]
            == multiset(w.queues[h].mailbox)[x] + multiset(w.queues[h].delivered)[x]
               + multiset(DrainedAt(w.discarded, h))[x]
  {
    var q, drained := w.queues[h], DrainedAt(w.discarded, h);
    assert Fine(w, h, {});
    ShuffleSame(q.accepted, q.delivered + drained + q.mailbox);
  }

  /** on_destroy never overlaps a dispatch and is followed by none: an actor that was destroyed is not
      being dispatched, will not be (its state is 0), has nothing left and accepts nothing. */
  lemma DestroyedAfterDispatch(w: World, h: nat)
    requires Good(w) && h in w.queues && w.queues[h].destroys > 0
    ensures var q := w.queues[h];
            q.destroys == 1 && !q.running && q.state == 0 && q.mailbox == [] && !q.accepting
  {
    assert Fine(w, h, {});
  }

  /** An item with a buffer that one push carried is at its destination or nowhere. */
  lemma OnlyThere(w: World, b: nat, k: nat, h: nat, x: Item)
    requires Good(w) && OnlyCarrier(w.sent, b, k) && x.msg.buffer == Some(b)
    ensures var here := if h == w.sent[k].dest && x == w.sent[k].item then 1 else 0;
            AcceptedAt(w.queues, h)[x] + RefusedAt(w.discarded, h)[x] == here
  {
    Open(w, [], multiset{});
    assert w.sent[..|w.sent|] == w.sent;
    CarriedOnce(w.sent, b, k, |w.sent|, h, x);
    assert SentTo(w.sent, h) == AcceptedAt(w.queues, h) + RefusedAt(w.discarded, h);
  }

  lemma OnlyDiscardedThere(w: World, b: nat, k: nat, i: nat)
    requires Good(w) && OnlyCarrier(w.sent, b, k)
    requires i < |w.discarded| && w.discarded[i].item.msg.buffer == Some(b)
    ensures w.discarded[i].at == w.sent[k].dest && w.discarded[i].item == w.sent[k].item
  {
    var d := w.discarded[i];
    DiscardListed(w.discarded, i);
    OnlyThere(w, b, k, d.at, d.item);
    if d.drained {
      assert d.at in w.queues;
      InExactlyOnePlace(w, d.at, d.item);
      assert d.item in multiset(DrainedAt(w.discarded, d.at));
    }
  }

  /** A buffer that one push carried is freed by the system exactly once if that message was refused or
      drained, and not at all if it is waiting or was delivered; and it is one of the four. */
  lemma FreedIffNotDelivered(w: World, b: nat, k: nat)
    requires Good(w) && OnlyCarrier(w.sent, b, k)
    ensures
      var h := w.sent[k].dest;
      var x := w.sent[k].item;
      var refused := RefusedAt(w.discarded, h)[x];
      var drained := multiset(DrainedAt(w.discarded, h))[x];
      var waiting := if h in w.queues then multiset(w.queues[h].mailbox)[x] else 0;
      var delivered := if h in w.queues then multiset(w.queues[h].delivered)[x] else 0;
      && refused + drained + waiting + delivered == 1
      && (multiset(w.freed)[b] == 1 <==> refused == 1 || drained == 1)
      && (multiset(w.freed)[b] == 0 <==> waiting == 1 || delivered == 1)
  {
    var h, x := w.sent[k].dest, w.sent[k].item;
    forall i | 0 <= i < |w.discarded| && w.discarded[i].item.msg.buffer == Some(b)
      ensures w.discarded[i].at == h && w.discarded[i].item == x
    {
      OnlyDiscardedThere(w, b, k, i);
    }
    BufferCount(w.discarded, b, h, x);
    OnlyThere(w, b, k, h, x);
    Open(w, [], multiset{});
    assert multiset(w.freed) + multiset{} == multiset(w.freed);
    if h in w.queues {
      InExactlyOnePlace(w, h, x);
    } else {
      assert DrainedAt(w.discarded, h) == [];
    }
  }

  lemma LoggerSet(w: World, x: World)
    requires Good(w) && x == w.(logger := x.logger, named := x.named) && x.logger in {0, x.named}
    ensures Good(x)
  {
    SoundElsewhere(w, x, {});
    Open(w, [], multiset{});
    Close(x, [], multiset{});
  }

  lemma AskedDue(w: World, x: World, p: Post)
    requires Good(w) && p.cause == Asked && x == w.(asked := w.asked + [p])
    ensures Sound(x, {}) && Books(x, [p], multiset{})
  {
    Open(w, [], multiset{});
    assert w.sent + [] == w.sent;
    OneMorePost(w.sent, p, Asked, 0);
    OneMorePost(w.sent, p, Reply, 0);
    OneMorePost(w.sent, p, Overload, 0);
    SoundElsewhere(w, x, {});
    BooksElsewhere(w, x);
    Close(x, [p], multiset{});
  }

  lemma BooksElsewhere(w: World, x: World)
    requires Fates(w) && Reports(w) && x == w.(asked := x.asked)
    ensures Fates(x) && Reports(x)
  {
  }

  lemma FreeKeeps(w: World, x: World, m: Msg, busy: set<nat>, unfreed: multiset<nat>)
    requires Sound(w, busy) && Books(w, [], unfreed + BufferOf(m))
    requires x == w.(freed := w.freed + if m.buffer.Some? then [m.buffer.value] else [])
    ensures Sound(x, busy) && Books(x, [], unfreed)
  {
    SoundElsewhere(w, x, busy);
    FreeBooks(w, x, m, [], unfreed);
  }

  /** The warning of a push, if any, was pushed next. */
  ghost predicate Followed(w: World, last: World, p: Post)
    requires p.dest in w.queues
  {
    && w.sent + [p] + WarningDue(w, p) <= last.sent
    && (!Accepts(w.queues, LoggerOf(w)) ==> w.discarded + Refusals(WarningDue(w, p)) <= last.discarded)
  }

  lemma WarningFollows(w: World, mid: World, last: World, p: Post)
    requires Accepts(w.queues, p.dest) && mid == AfterFiling(w, p)
    requires if WarningDue(w, p) == [] then last == mid else Pushed(mid, last, WarningDue(w, p)[0])
    ensures Followed(w, last, p)
  {
    var due := WarningDue(w, p);
    if due == [] {
      assert w.sent + [p] + [] == w.sent + [p] && w.discarded + [] == w.discarded;
    } else {
      assert Refusals(due) == [Refusal(due[0])];
    }
  }

  lemma FiledAll(w: World, mid: World, last: World, x: World, p: Post)
    requires Accepts(w.queues, p.dest) && mid == AfterFiling(w, p) && Extends(w, mid, {})
    requires Extends(mid, last, {}) && Accepts(last.queues, p.dest)
    requires x == AfterSchedule(last, p.dest) && Extends(last, x, {})
    requires !Overloads(w.queues[p.dest]) ==> last == mid
    requires Followed(w, last, p)
    ensures Pushed(w, x, p) && Extends(w, x, {})
  {
    ExtendsChain(w, mid, last, {});
    ExtendsChain(w, last, x, {});
    assert Unharmed(mid, last, p.dest) && Unharmed(last, x, p.dest);
  }
}
