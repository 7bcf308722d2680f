/** A mailbox as a list of sub-queues, one per producing thread, each the ticket protocol of module
    ImplicitQueue: what a failed dequeue says about what is left. */
module SubQueues {
  import opened Counting
  import opened ImplicitQueue

  /** A sub-queue; only the number of its messages matters here. */
  type Box = State<()>

  const NO_MAIL: Box := State([], 0, 0, 0, 0, map[], [], {}, {})

  /** A message is constructed and published. */
  function Published(b: Box): Box {
    b.(slots := b.slots + [()], tail := b.tail + 1)
  }

  ghost predicate Good(b: Box) {
    Inv(b) && |b.slots| == b.tail
  }

  /** How many messages have not been taken out. */
  function Left(b: Box): int {
    b.tail - |b.log|
  }

  lemma NewGood()
    ensures Good(NO_MAIL) && Calm(NO_MAIL) && Left(NO_MAIL) == 0
  {
    assert Where(NO_MAIL.consumers, Claiming) == {};
  }

  lemma PublishGood(b: Box)
    requires Good(b)
    ensures Good(Published(b)) && Left(Published(b)) == Left(b) + 1
  {
    var mid := b.(slots := b.slots + [()]);
    assert Produce(b, (), mid);
    ProduceKeeps(b, (), mid);
    assert Produce(mid, (), Published(b));
    ProduceKeeps(mid, (), Published(b));
  }

  /** Consumer `c` takes a message out with this step. */
  predicate TakesOut(b: Box, c: nat) {
    c in b.consumers && b.consumers[c].Fetch?
  }

  lemma ConsumeGood(b: Box, c: nat, b': Box)
    requires Good(b) && Consume(b, c, b')
    ensures Good(b') && b'.tail == b.tail && b'.optimistic >= b.optimistic
    ensures Left(b') == Left(b) - Unit(TakesOut(b, c))
    ensures OthersStay(b.consumers, c, b'.consumers)
  {
    ConsumeKeeps(b, c, b');
  }

  // ----- All sub-queues -------------------------------------------------------------------------------

  function Sum(boxes: seq<Box>): int {
    if boxes == [] then 0 else Left(boxes[0]) + Sum(boxes[1..])
  }

  lemma {:induction false} SumPut(boxes: seq<Box>, i: nat, b: Box)
    requires i < |boxes|
    ensures Sum(boxes[i := b]) == Sum(boxes) - Left(boxes[i]) + Left(b)
  {
    if i > 0 {
      SumPut(boxes[1..], i - 1, b);
      assert boxes[i := b][1..] == boxes[1..][i - 1 := b];
    } else {
      assert boxes[i := b][1..] == boxes[1..];
    }
  }

  lemma {:induction false} SumMore(boxes: seq<Box>, b: Box)
    ensures Sum(boxes + [b]) == Sum(boxes) + Left(b)
  {
    if boxes == [] {
      assert [] + [b] == [b] && [b][1..] == [];
    } else {
      SumMore(boxes[1..], b);
      assert (boxes + [b])[1..] == boxes[1..] + [b];
    }
  }

  lemma {:induction false} SumSome(boxes: seq<Box>) returns (i: nat)
    requires Sum(boxes) > 0
    ensures i < |boxes| && Left(boxes[i]) > 0
  {
    if Left(boxes[0]) > 0 {
      i := 0;
    } else {
      i := SumSome(boxes[1..]);
      i := i + 1;
    }
  }

  lemma {:induction false} SumAtLeast(boxes: seq<Box>, i: nat)
    requires i < |boxes| && forall k :: 0 <= k < |boxes| ==> Left(boxes[k]) >= 0
    ensures Sum(boxes) >= Left(boxes[i])
  {
    if i > 0 {
      SumAtLeast(boxes[1..], i - 1);
    } else if |boxes| > 1 {
      SumAtLeast(boxes[1..], 0);
    }
  }

  // ----- What is left ---------------------------------------------------------------------------------

  ghost function Indexes(b: Box, n: nat): set<nat>
    requires n <= |b.log|
  {
    set k | 0 <= k < n :: b.log[k].0
  }

  lemma {:induction false} AsManyIndexes(b: Box, n: nat)
    requires n <= |b.log| && forall j, k :: 0 <= j < k < |b.log| ==> b.log[j].0 != b.log[k].0
    ensures |Indexes(b, n)| == n
  {
    if n > 0 {
      AsManyIndexes(b, n - 1);
      var last := b.log[n - 1].0;
      assert last !in Indexes(b, n - 1);
      assert Indexes(b, n) == Indexes(b, n - 1) + {last};
    } else {
      assert Indexes(b, n) == {};
    }
  }

  /** What was logged was claimed, and what was claimed was published. */
  lemma LoggedFits(b: Box)
    requires Good(b)
    ensures |b.log| <= b.head <= b.tail && Left(b) >= 0
  {
    AsManyIndexes(b, |b.log|);
    SubsetSize(Indexes(b, |b.log|), Range(b.head));
    AtMostTailWin(b);
  }

  lemma FetchedIsLeft(b: Box, c: nat)
    requires Good(b) && TakesOut(b, c)
    ensures Left(b) > 0
  {
    var i, indexes := b.consumers[c].index, Indexes(b, |b.log|);
    AsManyIndexes(b, |b.log|);
    assert i !in indexes by {
      assert !Logged(b, i);
    }
    SubsetSize(indexes + {i}, Range(b.head));
    AtMostTailWin(b);
  }

  // ----- Failed tickets -------------------------------------------------------------------------------

  /** One consumer at a time: no ticket ever failed, and the one that is drawn wins. */
  ghost predicate Calm(b: Box) {
    && b.failed == {}
    && forall c :: c in b.consumers ==> CalmAt(b, b.consumers[c])
  }

  predicate CalmAt(b: Box, pc: Consumer) {
    match pc
    case ReadOvercommit(tail) => tail <= b.tail
    case ReadOptimistic(tail, over) => over == 0 && tail <= b.tail
    case Draw(over) => over == 0 && b.optimistic < b.tail
    case Decide(ticket, over) => over == 0 && ticket < b.tail
    case GiveUp(_) => false
    case _ => true
  }

  /** Several consumers, but nothing new: tickets only fail when there are as many as messages. */
  ghost predicate Fair(b: Box) {
    && (forall t :: t in b.failed ==> b.tail <= t)
    && forall c :: c in b.consumers ==> FairAt(b, b.consumers[c])
  }

  predicate FairAt(b: Box, pc: Consumer) {
    match pc
    case ReadOvercommit(tail) => tail <= b.tail
    case ReadOptimistic(tail, _) => tail <= b.tail
    case Draw(over) => over == 0
    case Decide(_, over) => over == 0
    case GiveUp(ticket) => b.tail <= ticket
    case _ => true
  }

  lemma CalmIsFair(b: Box)
    requires Calm(b)
    ensures Fair(b)
  {
    forall c | c in b.consumers
      ensures FairAt(b, b.consumers[c])
    {
      assert CalmAt(b, b.consumers[c]);
    }
  }

  lemma PublishCalm(b: Box)
    requires Calm(b)
    ensures Calm(Published(b))
  {
    forall c | c in b.consumers
      ensures CalmAt(Published(b), b.consumers[c])
    {
      assert CalmAt(b, b.consumers[c]);
    }
  }

  lemma ConsumeCalm(b: Box, c: nat, b': Box)
    requires Good(b) && Calm(b) && Consume(b, c, b') && b.consumers.Keys <= {c}
    ensures Calm(b')
  {
    assert b.overcommit == 0;
    if c in b.consumers {
      assert CalmAt(b, b.consumers[c]);
    }
    forall d | d in b'.consumers
      ensures CalmAt(b', b'.consumers[d])
    {
      assert d == c;
    }
  }

  /** With `n` messages, more failed tickets than those drawn beyond `n` there cannot be. */
  lemma FailedBeyond(b: Box)
    requires Good(b) && Fair(b) && b.failed != {}
    ensures b.optimistic - b.overcommit >= b.tail
  {
    var t :| t in b.failed;
    SubsetSize(b.failed + Range(b.tail), Range(b.optimistic));
    assert b.failed !! Range(b.tail);
    assert |b.failed + Range(b.tail)| == |b.failed| + b.tail;
  }

  lemma NextFair(b: Box, c: nat, b': Box)
    requires Good(b) && Fair(b) && Consume(b, c, b') && c in b'.consumers
    ensures FairAt(b', b'.consumers[c])
  {
    if c in b.consumers {
      assert FairAt(b, b.consumers[c]);
      if b.consumers[c].ReadOptimistic? && b.failed != {} {
        FailedBeyond(b);
      }
    }
  }

  lemma ConsumeFair(b: Box, c: nat, b': Box)
    requires Good(b) && Fair(b) && Consume(b, c, b')
    ensures Fair(b')
  {
    ConsumeGood(b, c, b');
    if c in b.consumers {
      assert FairAt(b, b.consumers[c]);
    }
    forall d | d in b'.consumers
      ensures FairAt(b', b'.consumers[d])
    {
      if d != c {
        assert FairAt(b, b.consumers[d]);
      } else {
        NextFair(b, c, b');
      }
    }
  }

  /** As many tickets are drawn as there are messages. */
  predicate Spent(b: Box) {
    b.optimistic >= b.tail
  }

  /** Consumer `c` found nothing: with nothing new since it read the tail, all tickets are drawn. */
  lemma FoundNothing(b: Box, c: nat, b': Box)
    requires Good(b) && Fair(b) && Consume(b, c, b')
    requires c in b.consumers && c !in b'.consumers && !TakesOut(b, c)
    requires b.consumers[c].ReadOptimistic? ==> b.consumers[c].tail == b.tail
    ensures Spent(b')
  {
    assert FairAt(b, b.consumers[c]);
  }

  predicate Winning(pc: Consumer) {
    pc.Decide? || pc.Claim? || pc.Fetch?
  }

  /** What is left when all tickets are drawn is being taken out. */
  lemma LeftIsTaken(b: Box) returns (c: nat)
    requires Good(b) && Fair(b) && Spent(b) && Left(b) > 0
    ensures c in b.consumers && Winning(b.consumers[c])
  {
    if t: nat :| t < b.tail && t !in b.won {
      assert Held(b, t);
      c :| c in b.consumers && HoldsTicket(b.consumers[c]) && b.consumers[c].ticket == t;
      assert FairAt(b, b.consumers[c]);
    } else if d :| d in b.consumers && (b.consumers[d].Claim? || b.consumers[d].Fetch?) {
      c := d;
    } else {
      assert Where(b.consumers, Claiming) == {};
      SubsetSize(Range(b.tail), b.won);
      AllLogged(b);
      assert false;
    }
  }

  /** With nobody fetching, all that was claimed is logged. */
  lemma AllLogged(b: Box)
    requires Good(b) && forall c :: c in b.consumers ==> !b.consumers[c].Fetch?
    ensures |b.log| >= b.head
  {
    AsManyIndexes(b, |b.log|);
    forall i: nat | i < b.head
      ensures i in Indexes(b, |b.log|)
    {
      assert !Fetching(b, i);
      assert Logged(b, i);
      var k :| 0 <= k < |b.log| && b.log[k].0 == i;
    }
    SubsetSize(Range(b.head), Indexes(b, |b.log|));
  }
}
