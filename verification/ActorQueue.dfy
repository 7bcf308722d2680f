/** One actor's queue in the coarse model (ActorQueue and Actor of src/skynet.h): its mailbox, its flags,
    its overload threshold, and what each step of src/skynet.cpp does to them. */
module ActorQueue {
  import opened Numbers
  import opened Mailbox

  const OVERLOAD_THRESHOLD: nat := 1024

  /** The fields of the source, how often the queue stands in the global queue, and accounts: whether a
      worker is between the beginning and the end of a dispatch, what was accepted and delivered, and
      since the threshold was last reset how often it doubled, how many of these doublings were
      reported, whether all were, and the largest mailbox; `before` counts the reports before that
      reset. */
  datatype Queue = Queue(
    mailbox: seq<Item>, accepted: seq<Item>, delivered: seq<Item>,
    accepting: bool, releasing: bool, initialized: bool, state: int, tokens: nat, running: bool,
    owner: bool, depth: int, destroyRequested: bool, destroys: nat,
    threshold: nat, doublings: nat, reports: nat, heard: bool, peak: nat, before: nat)

  const NEW_QUEUE: Queue :=
    Queue([], [], [], true, false, false, 0, 0, false, true, 0, false, 0, OVERLOAD_THRESHOLD, 0, 0, true, 0, 0)

  /** The flags fit together. */
  ghost predicate Flags(q: Queue) {
    && (q.accepting <==> !q.releasing)
    && (q.accepting ==> q.owner && !q.destroyRequested && q.destroys == 0)
    && 0 <= q.state <= 2 && q.depth == (if q.state == 2 then 1 else 0) && q.running == (q.state == 2)
    && (q.state != 0 ==> q.initialized)
    && q.destroys <= 1 && (q.owner <==> q.destroys == 0)
    && (q.accepting ==> q.tokens == if q.state == 1 then 1 else 0)
    && q.tokens <= 1 && (q.state == 2 ==> q.tokens == 0)
  }

  /** The mailbox is below its threshold, which has doubled as often as the peak demands. */
  ghost predicate Load(q: Queue) {
    && q.threshold == OVERLOAD_THRESHOLD * Pow2(q.doublings)
    && |q.mailbox| <= q.peak < q.threshold
    && (q.doublings > 0 ==> q.peak >= OVERLOAD_THRESHOLD * Pow2(q.doublings - 1))
    && q.reports <= q.doublings && (q.heard ==> q.reports == q.doublings)
  }

  /** Nothing is lost, duplicated or, within one thread, reordered; and only an actor that is going away
      is drained. */
  ghost predicate Mail(q: Queue, drained: seq<Item>) {
    && Shuffle(q.accepted, q.delivered + drained + q.mailbox)
    && (q.accepting ==> drained == [])
  }

  ghost predicate Core(q: Queue, drained: seq<Item>) {
    Flags(q) && Load(q) && Mail(q, drained)
  }

  /** Between steps: a waiting message of a running actor will be dispatched, and an actor that is gone
      has an empty mailbox and was destroyed once its last dispatch ended. */
  ghost predicate Settled(q: Queue) {
    && (q.accepting && q.initialized && q.mailbox != [] ==> q.state != 0)
    && (q.state == 1 ==> q.accepting)
    && (!q.accepting && q.state != 2 ==> q.mailbox == [] && q.destroys == 1)
    && (!q.accepting && q.state == 2 ==> q.destroys == 0)
  }

  /** What others' pushes may do to a queue: add messages and schedule it, and nothing at all once it
      no longer accepts. */
  ghost predicate Grown(q: Queue, r: Queue) {
    && r == q.(mailbox := r.mailbox, accepted := r.accepted, threshold := r.threshold,
               doublings := r.doublings, reports := r.reports, heard := r.heard, peak := r.peak,
               state := r.state, tokens := r.tokens)
    && q.mailbox <= r.mailbox && q.accepted <= r.accepted
    && (r.state == q.state || (q.state == 0 && r.state == 1))
    && (!q.accepting ==> r == q)
  }

  lemma GrownSelf(q: Queue)
    ensures Grown(q, q)
  {
  }

  /** Thresholds double exactly floor(log2(peak / 1024)) + 1 times: for a peak in
      [1024 * 2^j, 1024 * 2^(j+1)) it is j + 1, below 1024 it is 0. */
  lemma Doublings(q: Queue, j: nat)
    requires Load(q)
    ensures q.peak < 1024 ==> q.doublings == 0
    ensures 1024 * Pow2(j) <= q.peak < 1024 * Pow2(j + 1)
            ==> q.doublings == j + 1
  {
    if q.doublings > 0 {
      assert Pow2(q.doublings - 1) >= 1;
    }
    if OVERLOAD_THRESHOLD * Pow2(j) <= q.peak < OVERLOAD_THRESHOLD * Pow2(j + 1) {
      if q.doublings <= j {
        Pow2Grows(q.doublings, j);
      } else if q.doublings > j + 1 {
        Pow2Grows(j + 1, q.doublings - 1);
      }
    }
  }

  // ----- Steps ----------------------------------------------------------------------------------------

  /** The next message reaches the threshold. */
  predicate Overloads(q: Queue) {
    |q.mailbox| + 1 >= q.threshold
  }

  /** A message put into the mailbox, doubling the threshold when it is reached; `logged` tells whether
      there is a logger to report that to. */
  function Filed(q: Queue, x: Item, logged: bool): Queue {
    var r := q.(mailbox := q.mailbox + [x], accepted := q.accepted + [x],
                peak := Max(q.peak, |q.mailbox| + 1));
    if Overloads(q)
    then r.(threshold := 2 * q.threshold, doublings := q.doublings + 1,
            reports := if logged then q.reports + 1 else q.reports, heard := q.heard && logged)
    else r
  }

  lemma FiledCore(q: Queue, x: Item, logged: bool, drained: seq<Item>)
    requires Core(q, drained) && q.accepting
    ensures Core(Filed(q, x, logged), drained) && Grown(q, Filed(q, x, logged))
    ensures Overloads(q) ==> !Overloads(Filed(q, x, logged))
  {
    FiledMail(q, x, logged, drained);
    if Overloads(q) {
      assert Pow2(q.doublings + 1) == 2 * Pow2(q.doublings);
      assert OVERLOAD_THRESHOLD * Pow2(q.doublings + 1) == 2 * (OVERLOAD_THRESHOLD * Pow2(q.doublings));
      assert q.threshold >= OVERLOAD_THRESHOLD;
    }
  }

  lemma FiledMail(q: Queue, x: Item, logged: bool, drained: seq<Item>)
    requires Mail(q, drained)
    ensures Mail(Filed(q, x, logged), drained)
  {
    var all := q.delivered + drained + q.mailbox;
    ShuffleAppend(q.accepted, all, [x], [x]);
    assert all + [x] == q.delivered + drained + (q.mailbox + [x]);
  }

  /** Item `i` taken out of the mailbox. */
  function Taken(q: Queue, i: nat): Queue
    requires i < |q.mailbox|
  {
    q.(mailbox := Without(q.mailbox, i))
  }

  /** Draining an item. */
  lemma TakenCore(q: Queue, i: nat, drained: seq<Item>)
    requires Core(q, drained) && FirstOf(q.mailbox, i) && !q.accepting
    ensures Core(Taken(q, i), drained + [q.mailbox[i]])
  {
    var x := q.mailbox[i];
    MoveFirst(q.accepted, q.delivered + drained, q.mailbox, i);
    assert q.delivered + drained + [x] == q.delivered + (drained + [x]);
  }

  function Delivering(q: Queue, i: nat): Queue
    requires i < |q.mailbox|
  {
    q.(mailbox := Without(q.mailbox, i), delivered := q.delivered + [q.mailbox[i]])
  }

  lemma DeliveringCore(q: Queue, i: nat, drained: seq<Item>)
    requires Core(q, drained) && FirstOf(q.mailbox, i) && q.state == 2 && q.accepting
    ensures Core(Delivering(q, i), drained) && Settled(Delivering(q, i))
  {
    MoveFirst(q.accepted, q.delivered + [], q.mailbox, i);
    assert q.delivered + [] + [q.mailbox[i]] == q.delivered + [q.mailbox[i]] + [];
  }

  function Scheduled(q: Queue): Queue {
    if q.initialized && q.state == 0 then q.(state := 1, tokens := q.tokens + 1) else q
  }

  lemma ScheduledCore(q: Queue, drained: seq<Item>)
    requires Core(q, drained) && q.accepting
    ensures Core(Scheduled(q), drained) && Settled(Scheduled(q)) && Grown(q, Scheduled(q))
  {
  }

  /** The queue of an actor whose initialization succeeded: what came early is scheduled. */
  function Opened(q: Queue): Queue {
    var r := q.(initialized := true);
    if q.mailbox == [] then r else Scheduled(r)
  }

  /** Accepting no more: by kill, or because initialization failed. */
  function Doomed(q: Queue, killed: bool): Queue {
    q.(accepting := false, releasing := true, destroyRequested := q.destroyRequested || killed)
  }

  lemma DoomedCore(q: Queue, killed: bool, drained: seq<Item>)
    requires Core(q, drained)
    ensures Core(Doomed(q, killed), drained)
    ensures q.accepting && q.state == 2 ==> Settled(Doomed(q, killed))
  {
  }

  /** A worker has left: it has stored 0 and lowered the depth. */
  function Left(q: Queue): Queue {
    q.(state := 0, depth := 0, running := false)
  }

  lemma LeftCore(q: Queue, drained: seq<Item>)
    requires Core(q, drained) && !q.accepting && q.tokens == 0
    ensures Core(Left(q), drained)
  {
  }

  /** destroy_actor, clear_queue_owner and the store of 0: on_destroy runs unless it has. */
  function Gone(q: Queue): Queue {
    q.(destroys := if q.destroys == 0 then 1 else q.destroys, owner := false, state := 0)
  }

  /** Drained, destroyed and without owner. */
  function Ended(q: Queue): Queue {
    Gone(q.(mailbox := []))
  }

  lemma GoneCore(q: Queue, drained: seq<Item>)
    requires Core(q, drained) && !q.accepting && q.mailbox == [] && !q.running
    ensures Core(Gone(q), drained) && Settled(Gone(q)) && Gone(q).destroys == 1
  {
  }

  /** The end of a dispatch of a running actor: back to the global queue, or idle with the overload
      threshold reset. */
  function Finished(q: Queue): Queue {
    if |q.mailbox| > 0 then q.(state := 1, tokens := q.tokens + 1, depth := 0, running := false)
    else q.(state := 0, depth := 0, running := false, threshold := OVERLOAD_THRESHOLD, doublings := 0,
            peak := 0, before := q.before + q.reports, reports := 0, heard := true)
  }

  lemma FinishedCore(q: Queue, drained: seq<Item>)
    requires Core(q, drained) && q.state == 2 && q.accepting
    ensures Core(Finished(q), drained) && Settled(Finished(q))
  {
    assert Pow2(0) == 1;
  }

  /** `taken` has gone from the mailbox to the delivered items, each thread's in order, and nothing else
      has changed. */
  ghost predicate Moved(q: Queue, r: Queue, taken: seq<Item>) {
    && r == q.(mailbox := r.mailbox, delivered := q.delivered + taken)
    && Shuffle(q.mailbox, taken + r.mailbox)
  }

  lemma MovedNext(q: Queue, r: Queue, taken: seq<Item>, i: nat)
    requires Moved(q, r, taken) && FirstOf(r.mailbox, i)
    ensures Moved(q, Delivering(r, i), taken + [r.mailbox[i]])
  {
    MoveFirst(q.mailbox, taken, r.mailbox, i);
    assert q.delivered + taken + [r.mailbox[i]] == q.delivered + (taken + [r.mailbox[i]]);
  }

  lemma MovedCount(q: Queue, r: Queue, taken: seq<Item>)
    requires Moved(q, r, taken)
    ensures |q.mailbox| == |taken| + |r.mailbox|
  {
    ShuffleSame(q.mailbox, taken + r.mailbox);
  }
}
