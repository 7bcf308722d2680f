/** The dequeue protocol of one implicit producer of moodycamel::ConcurrentQueue
    (3rdparty/concurrentqueue/concurrentqueue.h): a consumer draws an optimistic ticket, compares it
    with the tail, and either claims the head or records an overcommit.  One producer, any number of
    consumers, one atomic operation per step.  The counters are unbounded here; `CircularLessAgrees`
    relates the comparison to the 64-bit one of the source. */
module ImplicitQueue {
  import opened Numbers
  import opened Counting

  datatype Consumer =
    | ReadTail
    | ReadOvercommit(tail: nat)
    | ReadOptimistic(tail: nat, over: nat)
    | Draw(over: nat)
    | Decide(ticket: nat, over: nat)
    | Claim(ticket: nat)
    | GiveUp(ticket: nat)
    | Fetch(index: nat)

  datatype State<T> = State(
    slots: seq<T>,                 // elements constructed in the blocks
    tail: nat,                     // tailIndex
    head: nat,                     // headIndex
    optimistic: nat,               // dequeueOptimisticCount
    overcommit: nat,               // dequeueOvercommit
    consumers: map<nat, Consumer>,
    log: seq<(nat, T)>,            // what was dequeued, with its index
    won: set<nat>,                 // history: tickets that passed the second comparison
    failed: set<nat>               // history: tickets whose overcommit has been recorded
  )

  ghost predicate Initial<T>(s: State<T>) {
    s == State([], 0, 0, 0, 0, map[], [], {}, {})
  }

  /** enqueue: the element is constructed first and then published. */
  ghost predicate Produce<T>(s: State<T>, x: T, s': State<T>) {
    if |s.slots| == s.tail then s' == s.(slots := s.slots + [x])
    else s' == s.(tail := s.tail + 1)
  }

  function Goto<T>(s: State<T>, c: nat, pc: Consumer): State<T> {
    s.(consumers := s.consumers[c := pc])
  }

  /** dequeue; a consumer that returns leaves the map. */
  ghost predicate Consume<T>(s: State<T>, c: nat, s': State<T>) {
    if c !in s.consumers then s' == Goto(s, c, ReadTail)
    else
      match s.consumers[c]
      case ReadTail => s' == Goto(s, c, ReadOvercommit(s.tail))
      case ReadOvercommit(tail) => s' == Goto(s, c, ReadOptimistic(tail, s.overcommit))
      case ReadOptimistic(tail, over) =>
        s' == if s.optimistic - over < tail then Goto(s, c, Draw(over))
              else s.(consumers := s.consumers - {c})
      case Draw(over) => s' == Goto(s.(optimistic := s.optimistic + 1), c, Decide(s.optimistic, over))
      case Decide(ticket, over) =>
        s' == if ticket - over < s.tail then Goto(s.(won := s.won + {ticket}), c, Claim(ticket))
              else Goto(s, c, GiveUp(ticket))
      case Claim(ticket) => s' == Goto(s.(head := s.head + 1), c, Fetch(s.head))
      case GiveUp(ticket) =>
        s' == s.(overcommit := s.overcommit + 1, failed := s.failed + {ticket}, consumers := s.consumers - {c})
      case Fetch(index) =>
        && index < |s.slots|
        && s' == s.(log := s.log + [(index, s.slots[index])], consumers := s.consumers - {c})
  }

  ghost predicate Next<T(!new)>(s: State<T>, s': State<T>) {
    (exists x :: Produce(s, x, s')) || (exists c: nat :: Consume(s, c, s'))
  }

  ghost predicate IsRun<T(!new)>(run: seq<State<T>>) {
    && |run| > 0
    && Initial(run[0])
    && forall i :: 0 <= i < |run| - 1 ==> Linked(run, i)
  }

  ghost predicate Linked<T(!new)>(run: seq<State<T>>, i: nat)
    requires i + 1 < |run|
  {
    Next(run[i], run[i + 1])
  }

  // ----- Comparison in the source --------------------------------------------------------------

  /** details::circular_less_than on 64-bit unsigned values. */
  predicate CircularLess(a: nat, b: nat) {
    (a - b) % UINT64_SPAN > UINT64_SPAN / 2
  }

  /** Modulo 2^64 it agrees with the order of the unbounded values while they are less than 2^63
      apart. */
  lemma CircularLessAgrees(x: int, y: int)
    requires -0x8000_0000_0000_0000 < x - y < 0x8000_0000_0000_0000
    ensures CircularLess(x % UINT64_SPAN, y % UINT64_SPAN) <==> x < y
  {
    var k := x / UINT64_SPAN - y / UINT64_SPAN;
    assert x % UINT64_SPAN - y % UINT64_SPAN == (x - y) - k * UINT64_SPAN;
    ModShift(x - y, k);
  }

  lemma ModShift(d: int, k: int)
    ensures (d - k * UINT64_SPAN) % UINT64_SPAN == d % UINT64_SPAN
  {
    var q := (d - k * UINT64_SPAN) / UINT64_SPAN;
    assert d == (q + k) * UINT64_SPAN + (d - k * UINT64_SPAN) % UINT64_SPAN;
  }

  // ----- The invariant -------------------------------------------------------------------------

  ghost function Below(tickets: set<nat>, n: nat): set<nat> {
    set t | t in tickets && t < n
  }

  predicate HoldsTicket(pc: Consumer) { pc.Decide? || pc.GiveUp? }
  predicate SameTicket(a: Consumer, b: Consumer) { HoldsTicket(a) && HoldsTicket(b) && a.ticket == b.ticket }
  predicate SameIndex(a: Consumer, b: Consumer) { a.Fetch? && b.Fetch? && a.index == b.index }
  predicate Claiming(pc: Consumer) { pc.Claim? }

  /** Tickets are drawn once and are won, failed or still held. */
  ghost predicate Tickets<T>(s: State<T>) {
    && (forall t :: t in s.won ==> t < s.optimistic && t !in s.failed)
    && (forall t :: t in s.failed ==> t < s.optimistic)
    && (forall c :: c in s.consumers && HoldsTicket(s.consumers[c]) ==>
          var t := s.consumers[c].ticket; t < s.optimistic && t !in s.won && t !in s.failed)
    && (forall c, d :: c in s.consumers && d in s.consumers && c != d ==>
          !SameTicket(s.consumers[c], s.consumers[d]))
    && (forall t: nat :: t < s.optimistic && t !in s.won && t !in s.failed ==> Held(s, t))
  }

  ghost predicate Held<T>(s: State<T>, t: nat) {
    exists c :: c in s.consumers && HoldsTicket(s.consumers[c]) && s.consumers[c].ticket == t
  }

  /** A consumer's snapshot of the overcommit counts only failures with smaller tickets. */
  ghost predicate Snapshots<T>(s: State<T>) {
    forall c :: c in s.consumers ==>
      match s.consumers[c]
      case ReadOptimistic(_, over) => over <= s.overcommit
      case Draw(over) => over <= s.overcommit
      case Decide(t, over) => over <= |Below(s.failed, t)|
      case _ => true
  }

  /** Every winning ticket fits below the tail once the failures before it are discounted. */
  ghost predicate Fits<T>(s: State<T>) {
    forall t :: t in s.won ==> t + 1 <= s.tail + |Below(s.failed, t)|
  }

  ghost predicate Counts<T>(s: State<T>) {
    && s.overcommit == |s.failed|
    && s.head + Count(s.consumers, Claiming) == |s.won|
    && s.tail <= |s.slots| <= s.tail + 1
  }

  /** Every claimed index is logged or about to be fetched, exactly once. */
  ghost predicate Indices<T>(s: State<T>) {
    && (forall k :: 0 <= k < |s.log| ==>
          s.log[k].0 < s.head && s.log[k].0 < |s.slots| && s.log[k].1 == s.slots[s.log[k].0])
    && (forall j, k :: 0 <= j < k < |s.log| ==> s.log[j].0 != s.log[k].0)
    && (forall c :: c in s.consumers && s.consumers[c].Fetch? ==>
          s.consumers[c].index < s.head && !Logged(s, s.consumers[c].index))
    && (forall c, d :: c in s.consumers && d in s.consumers && c != d ==>
          !SameIndex(s.consumers[c], s.consumers[d]))
    && (forall i: nat :: i < s.head ==> Logged(s, i) || Fetching(s, i))
  }

  ghost predicate Logged<T>(s: State<T>, i: nat) {
    exists k :: 0 <= k < |s.log| && s.log[k].0 == i
  }

  ghost predicate Fetching<T>(s: State<T>, i: nat) {
    exists c :: c in s.consumers && s.consumers[c] == Fetch(i)
  }

  ghost predicate Inv<T>(s: State<T>) {
    Tickets(s) && Snapshots(s) && Fits(s) && Counts(s) && Indices(s)
  }

  // ----- Counting tickets ----------------------------------------------------------------------

  lemma BelowGrows(a: set<nat>, b: set<nat>, n: nat)
    requires a <= b
    ensures |Below(a, n)| <= |Below(b, n)|
  {
    SubsetSize(Below(a, n), Below(b, n));
  }

  lemma Largest(tickets: set<nat>) returns (m: nat)
    requires tickets != {}
    ensures m in tickets && forall t :: t in tickets ==> t <= m
    decreases |tickets|
  {
    m :| m in tickets;
    var rest := tickets - {m};
    if rest != {} {
      var k := Largest(rest);
      if k > m { m := k; }
    }
    assert forall t :: t in tickets ==> t == m || t in rest || t <= m;
  }

  /** The heart of the protocol: at most `tail` tickets ever win. */
  lemma AtMostTailWin<T>(s: State<T>)
    requires Tickets(s) && Fits(s)
    ensures |s.won| <= s.tail
  {
    if s.won != {} {
      var m := Largest(s.won);
      var lost := Below(s.failed, m);
      assert s.won !! lost;
      SubsetSize(s.won + lost, Range(m + 1));
      assert |s.won + lost| == |s.won| + |lost|;
    }
  }

  // ----- Preservation ----------------------------------------------------------------------------

  lemma ProduceKeeps<T>(s: State<T>, x: T, s': State<T>)
    requires Inv(s) && Produce(s, x, s')
    ensures Inv(s')
  {
    assert forall t: nat :: Held(s, t) ==> Held(s', t);
    assert forall i: nat :: Logged(s, i) <==> Logged(s', i);
    assert forall i: nat :: Fetching(s, i) ==> Fetching(s', i);
  }

  /** A consumer that holds neither ticket nor index before or after the step. */
  predicate Light(pc: Consumer) {
    pc.ReadTail? || pc.ReadOvercommit? || pc.ReadOptimistic? || pc.Draw?
  }

  ghost predicate OthersStay(m: map<nat, Consumer>, c: nat, m': map<nat, Consumer>) {
    && (forall d :: d in m && d != c ==> d in m' && m'[d] == m[d])
    && (forall d :: d in m' && d != c ==> d in m)
  }

  lemma IndicesStay<T>(s: State<T>, c: nat, s': State<T>)
    requires Indices(s) && OthersStay(s.consumers, c, s'.consumers)
    requires s'.log == s.log && s'.head == s.head && s'.slots == s.slots
    requires (c in s.consumers ==> !s.consumers[c].Fetch?) && (c in s'.consumers ==> !s'.consumers[c].Fetch?)
    ensures Indices(s')
  {
    assert forall i: nat :: Logged(s, i) <==> Logged(s', i);
    forall i: nat | Fetching(s, i) ensures Fetching(s', i) {
      var d :| d in s.consumers && s.consumers[d] == Fetch(i);
      assert d in s'.consumers && s'.consumers[d] == Fetch(i);
    }
  }

  lemma TicketsStay<T>(s: State<T>, c: nat, s': State<T>)
    requires Tickets(s) && OthersStay(s.consumers, c, s'.consumers)
    requires s'.won == s.won && s'.failed == s.failed && s'.optimistic == s.optimistic
    requires var held := c in s.consumers && HoldsTicket(s.consumers[c]);
             if held
             then c in s'.consumers && HoldsTicket(s'.consumers[c]) && s'.consumers[c].ticket == s.consumers[c].ticket
             else c in s'.consumers ==> !HoldsTicket(s'.consumers[c])
    ensures Tickets(s')
  {
    forall t: nat | Held(s, t) ensures Held(s', t) {
      var d :| d in s.consumers && HoldsTicket(s.consumers[d]) && s.consumers[d].ticket == t;
      assert d in s'.consumers && HoldsTicket(s'.consumers[d]) && s'.consumers[d].ticket == t;
    }
  }

  lemma LightCounts<T>(s: State<T>, c: nat, s': State<T>)
    requires Counts(s) && Consume(s, c, s')
    requires c in s.consumers ==> Light(s.consumers[c]) && !s.consumers[c].Draw?
    ensures Counts(s') && OthersStay(s.consumers, c, s'.consumers)
  {
    CountDrop(s.consumers, c, Claiming);
    if c in s'.consumers {
      CountPut(s.consumers, c, s'.consumers[c], Claiming);
    }
  }

  lemma LightKeeps<T>(s: State<T>, c: nat, s': State<T>)
    requires Inv(s) && Consume(s, c, s')
    requires c in s.consumers ==> Light(s.consumers[c]) && !s.consumers[c].Draw?
    ensures Inv(s')
  {
    LightCounts(s, c, s');
    IndicesStay(s, c, s');
    TicketsStay(s, c, s');
  }

  lemma DrawKeeps<T>(s: State<T>, c: nat, s': State<T>)
    requires Inv(s) && c in s.consumers && s.consumers[c].Draw? && Consume(s, c, s')
    ensures Inv(s')
  {
    assert OthersStay(s.consumers, c, s'.consumers);
    IndicesStay(s, c, s');
    CountPut(s.consumers, c, s'.consumers[c], Claiming);
    assert Below(s.failed, s.optimistic) == s.failed;
    assert Held(s', s.optimistic);
    forall t: nat | Held(s, t) ensures Held(s', t) {
      var d :| d in s.consumers && HoldsTicket(s.consumers[d]) && s.consumers[d].ticket == t;
      assert d in s'.consumers && s'.consumers[d] == s.consumers[d];
    }
  }

  lemma LoseKeeps<T>(s: State<T>, c: nat, s': State<T>)
    requires Inv(s) && c in s.consumers && s.consumers[c].Decide? && Consume(s, c, s')
    requires s.consumers[c].ticket - s.consumers[c].over >= s.tail
    ensures Inv(s')
  {
    assert OthersStay(s.consumers, c, s'.consumers);
    IndicesStay(s, c, s');
    TicketsStay(s, c, s');
    CountPut(s.consumers, c, s'.consumers[c], Claiming);
  }

  lemma WinTickets<T>(s: State<T>, c: nat, s': State<T>)
    requires Tickets(s) && c in s.consumers && s.consumers[c].Decide?
    requires var t := s.consumers[c].ticket; s' == Goto(s.(won := s.won + {t}), c, Claim(t))
    ensures Tickets(s')
  {
    assert OthersStay(s.consumers, c, s'.consumers);
    OthersHold(s, c, s', s.consumers[c].ticket);
  }

  lemma WinKeeps<T>(s: State<T>, c: nat, s': State<T>)
    requires Inv(s) && c in s.consumers && s.consumers[c].Decide? && Consume(s, c, s')
    requires s.consumers[c].ticket - s.consumers[c].over < s.tail
    ensures Inv(s')
  {
    assert OthersStay(s.consumers, c, s'.consumers);
    IndicesStay(s, c, s');
    WinTickets(s, c, s');
    CountPut(s.consumers, c, s'.consumers[c], Claiming);
  }

  /** When `c` gives its ticket up to `won` or `failed`, all other tickets stay held. */
  lemma OthersHold<T>(s: State<T>, c: nat, s': State<T>, ticket: nat)
    requires c in s.consumers && HoldsTicket(s.consumers[c]) && s.consumers[c].ticket == ticket
    requires OthersStay(s.consumers, c, s'.consumers)
    ensures forall t: nat :: t != ticket && Held(s, t) ==> Held(s', t)
  {
    forall t: nat | t != ticket && Held(s, t) ensures Held(s', t) {
      var d :| d in s.consumers && HoldsTicket(s.consumers[d]) && s.consumers[d].ticket == t;
      assert d in s'.consumers && s'.consumers[d] == s.consumers[d];
    }
  }

  lemma GiveUpKeeps<T>(s: State<T>, c: nat, s': State<T>)
    requires Inv(s) && c in s.consumers && s.consumers[c].GiveUp? && Consume(s, c, s')
    ensures Inv(s')
  {
    var ticket := s.consumers[c].ticket;
    assert OthersStay(s.consumers, c, s'.consumers);
    IndicesStay(s, c, s');
    CountDrop(s.consumers, c, Claiming);
    OthersHold(s, c, s', ticket);
    forall t: nat ensures |Below(s.failed, t)| <= |Below(s'.failed, t)| { BelowGrows(s.failed, s'.failed, t); }
  }

  lemma ClaimKeeps<T>(s: State<T>, c: nat, s': State<T>)
    requires Inv(s) && c in s.consumers && s.consumers[c].Claim? && Consume(s, c, s')
    ensures Inv(s')
  {
    assert OthersStay(s.consumers, c, s'.consumers);
    TicketsStay(s, c, s');
    CountPut(s.consumers, c, s'.consumers[c], Claiming);
    ClaimIndices(s, c, s');
  }

  lemma ClaimIndices<T>(s: State<T>, c: nat, s': State<T>)
    requires Indices(s) && c in s.consumers && s.consumers[c].Claim? && Consume(s, c, s')
    ensures Indices(s')
  {
    assert forall i: nat :: Logged(s, i) <==> Logged(s', i);
    assert s'.consumers[c] == Fetch(s.head);
    forall i: nat | Fetching(s, i)
      ensures Fetching(s', i)
    {
      var d :| d in s.consumers && s.consumers[d] == Fetch(i);
      assert d in s'.consumers && s'.consumers[d] == Fetch(i);
    }
  }

  lemma FetchKeeps<T>(s: State<T>, c: nat, s': State<T>)
    requires Inv(s) && c in s.consumers && s.consumers[c].Fetch? && Consume(s, c, s')
    ensures Inv(s')
  {
    var index := s.consumers[c].index;
    assert OthersStay(s.consumers, c, s'.consumers);
    TicketsStay(s, c, s');
    CountDrop(s.consumers, c, Claiming);
    assert s'.log[|s.log|].0 == index;
    forall i: nat ensures Logged(s', i) <==> Logged(s, i) || i == index {
      if Logged(s, i) {
        var k :| 0 <= k < |s.log| && s.log[k].0 == i;
        assert s'.log[k].0 == i;
      }
    }
    forall i: nat | Fetching(s, i) && i != index ensures Fetching(s', i) {
      var d :| d in s.consumers && s.consumers[d] == Fetch(i);
      assert d in s'.consumers && s'.consumers[d] == Fetch(i);
    }
  }

  lemma ConsumeKeeps<T>(s: State<T>, c: nat, s': State<T>)
    requires Inv(s) && Consume(s, c, s')
    ensures Inv(s')
  {
    if c !in s.consumers {
      LightKeeps(s, c, s');
    } else {
      match s.consumers[c]
      case Draw(_) => DrawKeeps(s, c, s');
      case Decide(ticket, over) =>
        if ticket - over < s.tail { WinKeeps(s, c, s'); } else { LoseKeeps(s, c, s'); }
      case Claim(_) => ClaimKeeps(s, c, s');
      case GiveUp(_) => GiveUpKeeps(s, c, s');
      case Fetch(_) => FetchKeeps(s, c, s');
      case _ => LightKeeps(s, c, s');
    }
  }

  lemma {:induction false} RunInv<T(!new)>(run: seq<State<T>>, i: nat)
    requires IsRun(run) && i < |run|
    ensures Inv(run[i])
  {
    if i == 0 {
      assert Where(run[0].consumers, Claiming) == {};
    } else {
      RunInv(run, i - 1);
      assert Linked(run, i - 1);
      var s, s' := run[i - 1], run[i];
      if x :| Produce(s, x, s') {
        ProduceKeeps(s, x, s');
      } else {
        var c: nat :| Consume(s, c, s');
        ConsumeKeeps(s, c, s');
      }
    }
  }

  // ----- What the queue guarantees -------------------------------------------------------------

  /** headIndex never passes tailIndex, even counting the consumers that have already won but not
      yet moved it. */
  lemma HeadNeverPassesTail<T(!new)>(run: seq<State<T>>, i: nat)
    requires IsRun(run) && i < |run|
    ensures run[i].head + Count(run[i].consumers, Claiming) <= run[i].tail
  {
    RunInv(run, i);
    AtMostTailWin(run[i]);
  }

  /** A consumer that claimed an index finds a published element there, nobody else has that index,
      and it was not dequeued before. */
  lemma ClaimsAreDisjoint<T(!new)>(run: seq<State<T>>, i: nat, c: nat, d: nat)
    requires IsRun(run) && i < |run|
    requires c in run[i].consumers && run[i].consumers[c].Fetch?
    ensures run[i].consumers[c].index < run[i].tail <= |run[i].slots|
    ensures forall k :: 0 <= k < |run[i].log| ==> run[i].log[k].0 != run[i].consumers[c].index
    ensures d in run[i].consumers && d != c ==> run[i].consumers[d] != run[i].consumers[c]
  {
    HeadNeverPassesTail(run, i);
    RunInv(run, i);
    var s := run[i];
    assert !Logged(s, s.consumers[c].index);
    assert d in s.consumers && d != c ==> !SameIndex(s.consumers[d], s.consumers[c]);
  }

  /** What has been dequeued is exactly the elements below headIndex, each once, up to those a
      consumer is just fetching; indices are handed out in enqueue order. */
  lemma DequeuedExactlyOnce<T(!new)>(run: seq<State<T>>, i: nat, index: nat)
    requires IsRun(run) && i < |run|
    ensures index < run[i].head ==>
      || (exists c :: c in run[i].consumers && run[i].consumers[c] == Fetch(index))
      || (exists k :: 0 <= k < |run[i].log| && index < |run[i].slots|
                      && run[i].log[k] == (index, run[i].slots[index]))
    ensures index >= run[i].head ==> forall k :: 0 <= k < |run[i].log| ==> run[i].log[k].0 != index
    ensures forall j, k :: 0 <= j < k < |run[i].log| ==> run[i].log[j].0 != run[i].log[k].0
  {
    RunInv(run, i);
    var s := run[i];
    if index < s.head && !Fetching(s, index) {
      assert Logged(s, index);
      var k :| 0 <= k < |s.log| && s.log[k].0 == index;
      assert s.log[k] == (index, s.slots[index]);
    }
  }

  function TicketOf(pc: Consumer): nat {
    if HoldsTicket(pc) then pc.ticket else 0
  }

  ghost function TicketsOf(m: map<nat, Consumer>, cs: set<nat>): set<nat>
    requires cs <= m.Keys
  {
    set c | c in cs :: TicketOf(m[c])
  }

  lemma {:induction false} AsManyTickets(m: map<nat, Consumer>, cs: set<nat>)
    requires cs <= m.Keys
    requires forall c, d :: c in cs && d in cs && c != d ==> TicketOf(m[c]) != TicketOf(m[d])
    ensures |TicketsOf(m, cs)| == |cs|
    decreases |cs|
  {
    if cs == {} {
      assert TicketsOf(m, cs) == {};
    } else {
      var c :| c in cs;
      var rest := cs - {c};
      AsManyTickets(m, rest);
      assert TicketsOf(m, cs) == TicketsOf(m, rest) + {TicketOf(m[c])};
      assert TicketOf(m[c]) !in TicketsOf(m, rest);
    }
  }

  /** The optimistic test sees headIndex as many places further on as consumers hold tickets that are
      undecided, won and not yet claimed, or lost and not yet given back: an element may be there and
      the test fail, as long as somebody else holds a ticket, and only then. */
  lemma TestSeesTickets<T(!new)>(run: seq<State<T>>, i: nat)
    requires IsRun(run) && i < |run|
    ensures run[i].optimistic - run[i].overcommit
            == run[i].head + Count(run[i].consumers, Claiming) + Count(run[i].consumers, HoldsTicket)
  {
    RunInv(run, i);
    var s := run[i];
    var holders := Where(s.consumers, HoldsTicket);
    var held := TicketsOf(s.consumers, holders);
    assert forall c, d :: c in holders && d in holders && c != d ==>
        !SameTicket(s.consumers[c], s.consumers[d]);
    AsManyTickets(s.consumers, holders);
    AllTickets(s, held);
    assert |s.won + s.failed| == |s.won| + |s.failed|;
    assert |s.won + s.failed + held| == |s.won + s.failed| + |held|;
  }

  lemma AllTickets<T>(s: State<T>, held: set<nat>)
    requires Tickets(s) && held == TicketsOf(s.consumers, Where(s.consumers, HoldsTicket))
    ensures s.won !! s.failed && (s.won + s.failed) !! held
    ensures s.won + s.failed + held == Range(s.optimistic)
  {
    forall t: nat | t < s.optimistic && t !in s.won && t !in s.failed
      ensures t in held
    {
      assert Held(s, t);
      var c :| c in s.consumers && HoldsTicket(s.consumers[c]) && s.consumers[c].ticket == t;
      assert c in Where(s.consumers, HoldsTicket);
    }
  }

  /** When no consumer is inside dequeue, the optimistic test of the next one is exact. */
  lemma EmptyTestIsExact<T(!new)>(run: seq<State<T>>, i: nat)
    requires IsRun(run) && i < |run| && run[i].consumers == map[]
    ensures run[i].optimistic - run[i].overcommit == run[i].head
    ensures run[i].optimistic - run[i].overcommit < run[i].tail <==> run[i].head < run[i].tail
  {
    TestSeesTickets(run, i);
    assert Where(run[i].consumers, Claiming) == {};
    assert Where(run[i].consumers, HoldsTicket) == {};
  }
}
