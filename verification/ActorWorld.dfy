/** The whole system in the coarse model: all queues, the logger and the ledger, with the invariant that
    every step keeps. */
module ActorWorld {
  import opened Mailbox
  import opened Ledger
  import opened ActorQueue

  /** `logger` is the stored handle of the logger and `named` what the name "logger" stands for, 0 for
      none.  `sent` records every call of push_message, `asked` those that come from outside, `reported`
      the warnings due, `discarded` what was not delivered and `freed` the buffers freed. */
  datatype World = World(
    queues: map<nat, Queue>, logger: nat, named: nat, sent: seq<Post>, asked: seq<Post>,
    reported: seq<Post>, discarded: seq<Discard>, freed: seq<nat>)

  /** Where errors go: to the stored handle, else to the one with the name. */
  function LoggerOf(w: World): nat {
    if w.logger != 0 then w.logger else w.named
  }

  /** A message to `h` would be put into its mailbox: the queue is registered and accepts. */
  predicate Accepts(queues: map<nat, Queue>, h: nat) {
    h in queues && queues[h].accepting
  }

  /** The stored handle is cleared when the logger itself is killed; the name stays. */
  function Unlogged(w: World, h: nat): World {
    if w.logger == h then w.(logger := 0) else w
  }

  // ----- The queues -----------------------------------------------------------------------------------

  ghost predicate Fine(w: World, h: nat, busy: set<nat>) {
    h in w.queues ==>
      Core(w.queues[h], DrainedAt(w.discarded, h)) && (h in busy || Settled(w.queues[h]))
  }

  /** Every queue keeps its invariant; the actors in `busy` are in the middle of a step.  A stored logger
      has the name. */
  ghost predicate Sound(w: World, busy: set<nat>) {
    && w.logger in {0, w.named}
    && (forall h {:trigger Fine(w, h, busy)} :: Fine(w, h, busy))
    && (forall h {:trigger DrainedAt(w.discarded, h)} :: h !in w.queues ==> DrainedAt(w.discarded, h) == [])
  }

  // ----- The ledger -----------------------------------------------------------------------------------

  /** Every push has its cause and every cause its push: what was asked for, an error for each
      discarded request, a warning for each doubling; `due` is about to be pushed. */
  ghost predicate Causes(w: World, due: seq<Post>) {
    && OfCause(w.sent + due, Asked) == w.asked
    && OfCause(w.sent + due, Reply) == Replies(w.discarded)
    && OfCause(w.sent + due, Overload) == w.reported
  }

  function AcceptedAt(queues: map<nat, Queue>, h: nat): multiset<Item> {
    if h in queues then multiset(queues[h].accepted) else multiset{}
  }

  /** Every push ended in exactly one acceptance or one refusal. */
  ghost predicate Fates(w: World) {
    forall h :: SentTo(w.sent, h) == AcceptedAt(w.queues, h) + RefusedAt(w.discarded, h)
  }

  /** Buffers of discarded messages are freed, except `unfreed`, and no others. */
  ghost predicate Frees(w: World, unfreed: multiset<nat>) {
    multiset(w.freed) + unfreed == Buffers(w.discarded)
  }

  function ReportsOf(queues: map<nat, Queue>, h: nat): nat {
    if h in queues then queues[h].before + queues[h].reports else 0
  }

  /** The warnings due about each actor are the doublings of its threshold that had a logger. */
  ghost predicate Reports(w: World) {
    forall h :: CountAbout(w.reported, h) == ReportsOf(w.queues, h)
  }

  datatype Column = Why | Fate | Free | Report

  ghost predicate Balances(w: World, due: seq<Post>, unfreed: multiset<nat>, c: Column) {
    match c
    case Why => Causes(w, due)
    case Fate => Fates(w)
    case Free => Frees(w, unfreed)
    case Report => Reports(w)
  }

  /** All columns of the ledger balance. */
  ghost predicate Books(w: World, due: seq<Post>, unfreed: multiset<nat>) {
    forall c :: Balances(w, due, unfreed, c)
  }

  lemma Open(w: World, due: seq<Post>, unfreed: multiset<nat>)
    requires Books(w, due, unfreed)
    ensures Causes(w, due) && Fates(w) && Frees(w, unfreed) && Reports(w)
  {
    assert Balances(w, due, unfreed, Why) && Balances(w, due, unfreed, Fate);
    assert Balances(w, due, unfreed, Free) && Balances(w, due, unfreed, Report);
  }

  lemma Close(w: World, due: seq<Post>, unfreed: multiset<nat>)
    requires Causes(w, due) && Fates(w) && Frees(w, unfreed) && Reports(w)
    ensures Books(w, due, unfreed)
  {
  }

  /** The invariant between steps. */
  ghost predicate Good(w: World) {
    Sound(w, {}) && Books(w, [], multiset{})
  }

  // ----- What a step does to everybody else -----------------------------------------------------------

  ghost predicate Extends(w: World, x: World, but: set<nat>) {
    && x.queues.Keys == w.queues.Keys && x.asked == w.asked
    && x.named == w.named && x.logger in {w.logger, LoggerOf(w)}
    && w.sent <= x.sent && w.discarded <= x.discarded
    && (forall h :: h in w.queues && h !in but ==> Unharmed(w, x, h))
  }

  ghost predicate Unharmed(w: World, x: World, h: nat)
    requires h in w.queues && h in x.queues
  {
    Grown(w.queues[h], x.queues[h]) && DrainedAt(x.discarded, h) == DrainedAt(w.discarded, h)
  }

  lemma ExtendsChain(w: World, x: World, y: World, but: set<nat>)
    requires Extends(w, x, but) && Extends(x, y, but)
    ensures Extends(w, y, but)
  {
    forall h | h in w.queues && h !in but
      ensures Unharmed(w, y, h)
    {
      assert Unharmed(w, x, h) && Unharmed(x, y, h);
    }
  }

  lemma ExtendsSelf(w: World, but: set<nat>)
    ensures Extends(w, w, but)
  {
    forall h | h in w.queues && h !in but
      ensures Unharmed(w, w, h)
    {
      GrownSelf(w.queues[h]);
    }
  }

  lemma ExtendsMore(w: World, x: World, but: set<nat>)
    requires Extends(w, x, {})
    ensures Extends(w, x, but)
  {
  }

  lemma SameKeys(m: map<nat, Queue>, h: nat, r: Queue)
    requires h in m
    ensures m[h := r].Keys == m.Keys
  {
  }

  /** Setting the queue of `h`, before or after something that concerns others only by pushes. */
  lemma ExtendsAfter(w: World, mid: World, x: World, h: nat)
    requires h in w.queues && h in mid.queues && Extends(mid, x, {h})
    requires mid == w.(queues := w.queues[h := mid.queues[h]])
    ensures Extends(w, x, {h})
  {
    SameKeys(w.queues, h, mid.queues[h]);
    forall k | k in w.queues && k != h
      ensures Unharmed(w, x, k)
    {
      assert Unharmed(mid, x, k);
    }
  }

  lemma ExtendsBefore(w: World, last: World, x: World, h: nat)
    requires h in w.queues && h in last.queues && h in x.queues && Extends(w, last, {h})
    requires x == last.(queues := last.queues[h := x.queues[h]])
    ensures Extends(w, x, {h})
  {
    SameKeys(last.queues, h, x.queues[h]);
    forall k | k in w.queues && k != h
      ensures Unharmed(w, x, k)
    {
      assert Unharmed(w, last, k);
    }
  }

  // ----- One queue changes ----------------------------------------------------------------------------

  lemma SoundMore(w: World, busy: set<nat>, more: set<nat>)
    requires Sound(w, busy) && busy <= more
    ensures Sound(w, more)
  {
    forall h
      ensures Fine(w, h, more)
    {
      assert Fine(w, h, busy);
    }
  }

  lemma Replaced(w: World, x: World, h: nat, r: Queue, busy: set<nat>, after: set<nat>)
    requires Sound(w, busy) && h in w.queues && busy - {h} <= after
    requires x == w.(queues := w.queues[h := r])
    requires Core(r, DrainedAt(w.discarded, h)) && (h in after || Settled(r))
    ensures Sound(x, after)
  {
    SameKeys(w.queues, h, r);
    assert Fine(x, h, after);
    forall k
      ensures Fine(x, k, after)
    {
      if k != h {
        assert Fine(w, k, busy);
      }
    }
  }

  lemma OneGrown(w: World, x: World, h: nat, r: Queue)
    requires h in w.queues && x == w.(queues := w.queues[h := r]) && Grown(w.queues[h], r)
    ensures Extends(w, x, {})
  {
    SameKeys(w.queues, h, r);
    forall k | k in w.queues
      ensures Unharmed(w, x, k)
    {
      if k != h {
        GrownSelf(w.queues[k]);
      }
    }
  }

  /** A queue that changes without accepting or reporting anything leaves the ledger alone. */
  lemma BooksKept(w: World, x: World, h: nat, r: Queue, due: seq<Post>, unfreed: multiset<nat>)
    requires Books(w, due, unfreed) && h in w.queues && x == w.(queues := w.queues[h := r])
    requires r.accepted == w.queues[h].accepted
    requires r.before + r.reports == w.queues[h].before + w.queues[h].reports
    ensures Books(x, due, unfreed)
  {
    Open(w, due, unfreed);
    forall k
      ensures SentTo(x.sent, k) == AcceptedAt(x.queues, k) + RefusedAt(x.discarded, k)
      ensures CountAbout(x.reported, k) == ReportsOf(x.queues, k)
    {
      assert AcceptedAt(x.queues, k) == AcceptedAt(w.queues, k);
      assert ReportsOf(x.queues, k) == ReportsOf(w.queues, k);
    }
    Close(x, due, unfreed);
  }

  /** A step of one queue. */
  lemma Stepped(w: World, x: World, h: nat, r: Queue)
    requires Good(w) && h in w.queues && x == w.(queues := w.queues[h := r])
    requires Core(r, DrainedAt(w.discarded, h)) && Settled(r)
    requires r.accepted == w.queues[h].accepted
    requires r.before + r.reports == w.queues[h].before + w.queues[h].reports
    ensures Good(x) && Extends(w, x, {h})
  {
    Replaced(w, x, h, r, {}, {});
    BooksKept(w, x, h, r, [], multiset{});
    ExtendsSelf(w, {h});
    ExtendsBefore(w, w, x, h);
  }

  // ----- Refusing -------------------------------------------------------------------------------------

  function Refusal(p: Post): Discard {
    Discard(p.dest, false, p.item, p.item.producer)
  }

  /** A push that is recorded and refused. */
  function AfterRefusal(w: World, p: Post): World {
    w.(sent := w.sent + [p], discarded := w.discarded + [Refusal(p)])
  }

  lemma RefusalSound(w: World, x: World, p: Post, busy: set<nat>)
    requires Sound(w, busy) && x == AfterRefusal(w, p)
    ensures Sound(x, busy) && Extends(w, x, {})
  {
    forall h
      ensures DrainedAt(x.discarded, h) == DrainedAt(w.discarded, h)
    {
      OneMoreDiscard(w.discarded, Refusal(p), h);
    }
    forall h
      ensures Fine(x, h, busy)
    {
      assert Fine(w, h, busy);
    }
    forall h | h in w.queues
      ensures Unharmed(w, x, h)
    {
      GrownSelf(w.queues[h]);
    }
  }

  lemma RefusalBooks(w: World, x: World, p: Post, unfreed: multiset<nat>)
    requires Books(w, [p], unfreed) && x == AfterRefusal(w, p)
    ensures Books(x, ReplyTo(Refusal(p)), unfreed + BufferOf(p.item.msg))
  {
    Open(w, [p], unfreed);
    OneMoreDiscard(w.discarded, Refusal(p), 0);
    ReplyColumns(Refusal(p));
    assert w.reported + [] == w.reported;
    DueNext(w, x, p, ReplyTo(Refusal(p)));
    RefusalFates(w, x, p);
    RefusalFrees(w, x, p, unfreed);
    Close(x, ReplyTo(Refusal(p)), unfreed + BufferOf(p.item.msg));
  }

  lemma RefusalFrees(w: World, x: World, p: Post, unfreed: multiset<nat>)
    requires Frees(w, unfreed) && Reports(w) && x == AfterRefusal(w, p)
    ensures Frees(x, unfreed + BufferOf(p.item.msg)) && Reports(x)
  {
    OneMoreDiscard(w.discarded, Refusal(p), 0);
  }

  lemma RefusalFates(w: World, x: World, p: Post)
    requires Fates(w) && x == AfterRefusal(w, p)
    ensures Fates(x)
  {
    forall h
      ensures SentTo(x.sent, h) == AcceptedAt(x.queues, h) + RefusedAt(x.discarded, h)
    {
      OneMorePost(w.sent, p, Asked, h);
      OneMoreDiscard(w.discarded, Refusal(p), h);
    }
  }

  lemma ReplyColumns(d: Discard)
    ensures OfCause(ReplyTo(d), Asked) == [] && OfCause(ReplyTo(d), Overload) == []
    ensures OfCause(ReplyTo(d), Reply) == ReplyTo(d)
  {
    if ReplyTo(d) != [] {
      assert ReplyTo(d)[..0] == [];
    }
  }

  /** After the push of `p`, the reply or the warning it gives rise to is due. */
  lemma DueNext(w: World, x: World, p: Post, next: seq<Post>)
    requires Causes(w, [p]) && x.sent == w.sent + [p] && x.asked == w.asked
    requires |next| <= 1 && (next != [] ==> next[0].cause != Asked)
    requires Replies(x.discarded) == Replies(w.discarded) + OfCause(next, Reply)
    requires x.reported == w.reported + OfCause(next, Overload)
    ensures Causes(x, next)
  {
    OfCauseAppend(x.sent, next, Asked);
    OfCauseAppend(x.sent, next, Reply);
    OfCauseAppend(x.sent, next, Overload);
    assert OfCause(next, Asked) == [] by {
      if next != [] {
        assert next[..0] == [];
      }
    }
    assert w.asked + [] == w.asked;
  }

  // ----- Filing ---------------------------------------------------------------------------------------

  /** The warning due when `p` reaches the threshold of its destination. */
  function WarningDue(w: World, p: Post): seq<Post>
    requires p.dest in w.queues
  {
    if Overloads(w.queues[p.dest]) && LoggerOf(w) != 0
    then [Post(LoggerOf(w), Item(p.item.producer, Warning(p.dest)), Overload)] else []
  }

  /** A push that is recorded and accepted; a warning stores the logger's handle. */
  function AfterFiling(w: World, p: Post): World
    requires p.dest in w.queues
  {
    w.(sent := w.sent + [p], reported := w.reported + WarningDue(w, p),
       logger := if Overloads(w.queues[p.dest]) then LoggerOf(w) else w.logger,
       queues := w.queues[p.dest := Filed(w.queues[p.dest], p.item, LoggerOf(w) != 0)])
  }

  lemma FilingSound(w: World, x: World, p: Post, busy: set<nat>)
    requires Sound(w, busy) && Accepts(w.queues, p.dest) && x == AfterFiling(w, p)
    ensures Sound(x, busy + {p.dest}) && Extends(w, x, {})
  {
    var h := p.dest;
    var q := w.queues[h];
    var y := w.(queues := x.queues);
    assert Fine(w, h, busy);
    FiledCore(q, p.item, LoggerOf(w) != 0, DrainedAt(w.discarded, h));
    Replaced(w, y, h, x.queues[h], busy, busy + {h});
    OneGrown(w, y, h, x.queues[h]);
    SoundElsewhere(y, x, busy + {h});
    forall k | k in w.queues
      ensures Unharmed(w, x, k)
    {
      assert Unharmed(w, y, k);
    }
  }

  lemma SoundElsewhere(w: World, x: World, busy: set<nat>)
    requires Sound(w, busy) && x.queues == w.queues && x.discarded == w.discarded
    requires x.logger in {0, x.named}
    ensures Sound(x, busy)
  {
    forall h
      ensures Fine(x, h, busy)
    {
      assert Fine(w, h, busy);
    }
  }

  lemma FilingBooks(w: World, x: World, p: Post, unfreed: multiset<nat>)
    requires Books(w, [p], unfreed) && Accepts(w.queues, p.dest) && x == AfterFiling(w, p)
    ensures Books(x, WarningDue(w, p), unfreed)
  {
    Open(w, [p], unfreed);
    var due := WarningDue(w, p);
    if due != [] {
      assert due[..0] == [];
    }
    assert Replies(w.discarded) + [] == Replies(w.discarded);
    DueNext(w, x, p, due);
    FilingFates(w, x, p);
    FilingReports(w, x, p);
    Close(x, due, unfreed);
  }

  lemma FilingFates(w: World, x: World, p: Post)
    requires Fates(w) && Accepts(w.queues, p.dest) && x == AfterFiling(w, p)
    ensures Fates(x)
  {
    forall h
      ensures SentTo(x.sent, h) == AcceptedAt(x.queues, h) + RefusedAt(x.discarded, h)
    {
      OneMorePost(w.sent, p, Asked, h);
    }
  }

  lemma FilingReports(w: World, x: World, p: Post)
    requires Reports(w) && Accepts(w.queues, p.dest) && x == AfterFiling(w, p)
    ensures Reports(x)
  {
    forall h
      ensures CountAbout(x.reported, h) == ReportsOf(x.queues, h)
    {
      ReportOne(w.reported, w.queues, p, LoggerOf(w), h);
    }
  }

  /** The same for one actor. */
  lemma ReportOne(reported: seq<Post>, queues: map<nat, Queue>, p: Post, logger: nat, h: nat)
    requires p.dest in queues && CountAbout(reported, h) == ReportsOf(queues, h)
    ensures
      var q := queues[p.dest];
      var warning := Post(logger, Item(p.item.producer, Warning(p.dest)), Overload);
      CountAbout(reported + (if Overloads(q) && logger != 0 then [warning] else []), h)
      == ReportsOf(queues[p.dest := Filed(q, p.item, logger != 0)], h)
  {
    var warning := Post(logger, Item(p.item.producer, Warning(p.dest)), Overload);
    assert reported + [] == reported;
    OneMorePost(reported, warning, Overload, h);
  }

  // ----- Draining -------------------------------------------------------------------------------------

  /** Item `i` of the mailbox of `h` drained by a thread. */
  function AfterDrain(w: World, h: nat, i: nat, thread: nat): World
    requires h in w.queues && i < |w.queues[h].mailbox|
  {
    w.(queues := w.queues[h := Taken(w.queues[h], i)],
       discarded := w.discarded + [Discard(h, true, w.queues[h].mailbox[i], thread)])
  }

  lemma DrainSound(w: World, x: World, h: nat, i: nat, thread: nat, busy: set<nat>)
    requires Sound(w, busy) && h in w.queues && h in busy && FirstOf(w.queues[h].mailbox, i)
    requires !w.queues[h].accepting && x == AfterDrain(w, h, i, thread)
    ensures Sound(x, busy) && Extends(w, x, {h})
  {
    var d := Discard(h, true, w.queues[h].mailbox[i], thread);
    SameKeys(w.queues, h, Taken(w.queues[h], i));
    assert Fine(w, h, busy);
    TakenCore(w.queues[h], i, DrainedAt(w.discarded, h));
    OneMoreDiscard(w.discarded, d, h);
    forall k | k != h
      ensures DrainedAt(x.discarded, k) == DrainedAt(w.discarded, k)
    {
      OneMoreDiscard(w.discarded, d, k);
    }
    forall k
      ensures Fine(x, k, busy)
    {
      if k != h {
        assert Fine(w, k, busy);
      }
    }
    forall k | k in w.queues && k != h
      ensures Unharmed(w, x, k)
    {
      GrownSelf(w.queues[k]);
    }
  }

  lemma DrainBooks(w: World, x: World, h: nat, i: nat, thread: nat, unfreed: multiset<nat>)
    requires Books(w, [], unfreed) && h in w.queues && i < |w.queues[h].mailbox|
    requires x == AfterDrain(w, h, i, thread)
    ensures
      var d := Discard(h, true, w.queues[h].mailbox[i], thread);
      Books(x, ReplyTo(d), unfreed + BufferOf(d.item.msg))
  {
    var d := Discard(h, true, w.queues[h].mailbox[i], thread);
    var due := ReplyTo(d);
    Open(w, [], unfreed);
    OneMoreDiscard(w.discarded, d, 0);
    assert w.sent + [] == w.sent;
    ReplyColumns(d);
    OfCauseAppend(w.sent, due, Asked);
    OfCauseAppend(w.sent, due, Reply);
    OfCauseAppend(w.sent, due, Overload);
    assert w.asked + [] == w.asked && w.reported + [] == w.reported;
    DrainFates(w, x, h, i, thread);
    Close(x, due, unfreed + BufferOf(d.item.msg));
  }

  lemma DrainFates(w: World, x: World, h: nat, i: nat, thread: nat)
    requires Fates(w) && Reports(w) && h in w.queues && i < |w.queues[h].mailbox|
    requires x == AfterDrain(w, h, i, thread)
    ensures Fates(x) && Reports(x)
  {
    var d := Discard(h, true, w.queues[h].mailbox[i], thread);
    forall k
      ensures SentTo(x.sent, k) == AcceptedAt(x.queues, k) + RefusedAt(x.discarded, k)
      ensures CountAbout(x.reported, k) == ReportsOf(x.queues, k)
    {
      OneMoreDiscard(w.discarded, d, k);
      assert AcceptedAt(x.queues, k) == AcceptedAt(w.queues, k);
      assert ReportsOf(x.queues, k) == ReportsOf(w.queues, k);
      assert RefusedAt(x.discarded, k) == RefusedAt(w.discarded, k);
    }
  }

  /** Freeing what was left to free. */
  lemma FreeBooks(w: World, x: World, m: Msg, due: seq<Post>, unfreed: multiset<nat>)
    requires Books(w, due, unfreed + BufferOf(m))
    requires x == w.(freed := w.freed + if m.buffer.Some? then [m.buffer.value] else [])
    ensures Books(x, due, unfreed)
  {
    Open(w, due, unfreed + BufferOf(m));
    var more := if m.buffer.Some? then [m.buffer.value] else [];
    assert multiset(w.freed + more) == multiset(w.freed) + BufferOf(m);
    assert multiset(w.freed) + (unfreed + BufferOf(m)) == multiset(w.freed) + BufferOf(m) + unfreed;
    Close(x, due, unfreed);
  }

  lemma ExtendsByFree(w: World, x: World, y: World, but: set<nat>)
    requires Extends(w, x, but) && y == x.(freed := y.freed)
    ensures Extends(w, y, but)
  {
    forall h | h in w.queues && h !in but
      ensures Unharmed(w, y, h)
    {
      assert Unharmed(w, x, h);
    }
  }
}
