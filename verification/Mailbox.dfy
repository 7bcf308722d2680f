/** A mailbox filled by several threads (src/skynet.cpp on top of moodycamel::ConcurrentQueue): the
    queue keeps the order of each producing thread and nothing more, so a dequeue yields the oldest
    item of some thread. */
module Mailbox {
  import opened Wrappers
  import opened Counting

  /** `buffer` is the heap buffer of a serialized payload, which the receiver takes over. */
  datatype Msg = Msg(source: nat, session: int, kind: int, buffer: Option<nat>)

  /** A message and the thread that enqueued it. */
  datatype Item = Item(producer: nat, msg: Msg)

  /** The items of one producing thread, in order. */
  function Of(s: seq<Item>, p: nat): seq<Item> {
    if s == [] then [] else (if s[0].producer == p then [s[0]] else []) + Of(s[1..], p)
  }

  /** The same items, with each thread's own in the same order. */
  ghost predicate Shuffle(a: seq<Item>, b: seq<Item>) {
    forall p :: Agree(a, b, p)
  }

  ghost predicate Agree(a: seq<Item>, b: seq<Item>, p: nat) {
    Of(a, p) == Of(b, p)
  }

  /** What a dequeue may yield: no item of the same thread is in front. */
  predicate FirstOf(m: seq<Item>, i: nat) {
    i < |m| && forall j :: 0 <= j < i ==> m[j].producer != m[i].producer
  }

  function Without(m: seq<Item>, i: nat): seq<Item>
    requires i < |m|
  {
    m[..i] + m[i + 1..]
  }

  // ----- Threads keep their order ---------------------------------------------------------------------

  lemma {:induction false} OfAppend(a: seq<Item>, b: seq<Item>, p: nat)
    ensures Of(a + b, p) == Of(a, p) + Of(b, p)
  {
    if a == [] {
      assert a + b == b;
    } else {
      assert (a + b)[1..] == a[1..] + b;
      OfAppend(a[1..], b, p);
      var first := if a[0].producer == p then [a[0]] else [];
      assert Of(a + b, p) == first + (Of(a[1..], p) + Of(b, p));
    }
  }

  lemma OfOne(x: Item, p: nat)
    ensures Of([x], p) == if x.producer == p then [x] else []
  {
    assert Of([x][1..], p) == [];
  }

  lemma {:induction false} OfNone(a: seq<Item>, p: nat)
    requires forall j :: 0 <= j < |a| ==> a[j].producer != p
    ensures Of(a, p) == []
  {
    if a != [] {
      OfNone(a[1..], p);
    }
  }

  lemma ShuffleAppend(a: seq<Item>, b: seq<Item>, c: seq<Item>, d: seq<Item>)
    requires Shuffle(a, b) && Shuffle(c, d)
    ensures Shuffle(a + c, b + d)
  {
    forall p
      ensures Agree(a + c, b + d, p)
    {
      assert Agree(a, b, p) && Agree(c, d, p);
      OfAppend(a, c, p);
      OfAppend(b, d, p);
    }
  }

  lemma ShuffleChain(a: seq<Item>, b: seq<Item>, c: seq<Item>)
    requires Shuffle(a, b) && Shuffle(b, c)
    ensures Shuffle(a, c)
  {
    forall p
      ensures Agree(a, c, p)
    {
      assert Agree(a, b, p) && Agree(b, c, p);
    }
  }

  /** Taking the first item of a thread keeps everybody's order. */
  lemma TakeFirst(m: seq<Item>, i: nat)
    requires FirstOf(m, i)
    ensures Shuffle(m, [m[i]] + Without(m, i))
  {
    var a, x, b := m[..i], m[i], m[i + 1..];
    assert m == a + ([x] + b);
    forall p
      ensures Agree(m, [x] + Without(m, i), p)
    {
      OfAppend(a, [x] + b, p);
      OfAppend([x], b, p);
      OfAppend([x], a + b, p);
      OfAppend(a, b, p);
      OfOne(x, p);
      if p == x.producer {
        OfNone(a, p);
        assert Of(m, p) == [x] + Of(b, p);
      } else {
        assert Of(m, p) == Of(a, p) + Of(b, p);
      }
    }
  }

  /** The account `acc == before + m` after one item has moved from the mailbox to `before`. */
  lemma MoveFirst(acc: seq<Item>, before: seq<Item>, m: seq<Item>, i: nat)
    requires Shuffle(acc, before + m) && FirstOf(m, i)
    ensures Shuffle(acc, before + [m[i]] + Without(m, i))
  {
    TakeFirst(m, i);
    ShuffleAppend(before, before, m, [m[i]] + Without(m, i));
    ShuffleChain(acc, before + m, before + ([m[i]] + Without(m, i)));
    assert before + ([m[i]] + Without(m, i)) == before + [m[i]] + Without(m, i);
  }

  lemma ShuffleCancel(acc: seq<Item>, before: seq<Item>, a: seq<Item>, b: seq<Item>)
    requires Shuffle(acc, before + a) && Shuffle(acc, before + b)
    ensures Shuffle(a, b)
  {
    forall p
      ensures Agree(a, b, p)
    {
      OfAppend(before, a, p);
      OfAppend(before, b, p);
      assert Agree(acc, before + a, p) && Agree(acc, before + b, p);
      assert Of(a, p) == (Of(before, p) + Of(a, p))[|Of(before, p)|..];
    }
  }

  lemma {:induction false} OfCount(s: seq<Item>, x: Item)
    ensures multiset(s)[x] == multiset(Of(s, x.producer))[x]
  {
    if s != [] {
      OfCount(s[1..], x);
      assert s == [s[0]] + s[1..];
    }
  }

  lemma ShuffleSame(a: seq<Item>, b: seq<Item>)
    requires Shuffle(a, b)
    ensures multiset(a) == multiset(b) && |a| == |b|
  {
    forall x: Item
      ensures multiset(a)[x] == multiset(b)[x]
    {
      OfCount(a, x);
      OfCount(b, x);
      assert Agree(a, b, x.producer);
    }
    assert |multiset(a)| == |a| && |multiset(b)| == |b|;
  }

  // ----- Which orders of delivery are possible --------------------------------------------------------

  /** A mailbox can be emptied in the order `d`. */
  ghost predicate Legal(m: seq<Item>, d: seq<Item>)
    decreases |d|
  {
    if d == [] then m == []
    else exists i: nat :: FirstOf(m, i) && m[i] == d[0] && Legal(Without(m, i), d[1..])
  }

  /** Where the oldest item of a thread is. */
  function First(m: seq<Item>, p: nat): (i: nat)
    requires Of(m, p) != []
    ensures FirstOf(m, i) && m[i].producer == p && m[i] == Of(m, p)[0]
  {
    if m[0].producer == p then 0 else 1 + First(m[1..], p)
  }

  /** Exactly the shuffles are possible: every thread's order is kept, and nothing else is. */
  lemma {:induction false} LegalIff(m: seq<Item>, d: seq<Item>)
    ensures Legal(m, d) <==> Shuffle(m, d)
    decreases |d|
  {
    if d == [] {
      if Shuffle(m, d) {
        ShuffleSame(m, d);
      }
    } else {
      if Legal(m, d) {
        var i: nat :| FirstOf(m, i) && m[i] == d[0] && Legal(Without(m, i), d[1..]);
        LegalIff(Without(m, i), d[1..]);
        PutBack(m, d, i);
      }
      if Shuffle(m, d) {
        var i := NextTaken(m, d);
        LegalIff(Without(m, i), d[1..]);
      }
    }
  }

  lemma PutBack(m: seq<Item>, d: seq<Item>, i: nat)
    requires d != [] && FirstOf(m, i) && m[i] == d[0] && Shuffle(Without(m, i), d[1..])
    ensures Shuffle(m, d)
  {
    TakeFirst(m, i);
    ShuffleAppend([m[i]], [d[0]], Without(m, i), d[1..]);
    assert d == [d[0]] + d[1..];
    ShuffleChain(m, [m[i]] + Without(m, i), d);
  }

  lemma NextTaken(m: seq<Item>, d: seq<Item>) returns (i: nat)
    requires Shuffle(m, d) && d != []
    ensures FirstOf(m, i) && m[i] == d[0] && Shuffle(Without(m, i), d[1..])
  {
    var p := d[0].producer;
    assert Agree(m, d, p) && Of(d, p) == [d[0]] + Of(d[1..], p);
    i := First(m, p);
    TakeFirst(m, i);
    var rest := Without(m, i);
    forall q
      ensures Agree(rest, d[1..], q)
    {
      OfAppend([m[i]], rest, q);
      OfAppend([d[0]], d[1..], q);
      assert d == [d[0]] + d[1..];
      assert Agree(m, [m[i]] + rest, q) && Agree(m, d, q);
      assert Of([m[i]], q) + Of(rest, q) == Of([m[i]], q) + Of(d[1..], q);
      assert Of(rest, q) == (Of([m[i]], q) + Of(rest, q))[|Of([m[i]], q)|..];
    }
  }

  // ----- When the order of a sender is kept -----------------------------------------------------------

  /** The items sent by one actor. */
  function From(s: seq<Item>, source: nat): seq<Item> {
    if s == [] then [] else (if s[0].msg.source == source then [s[0]] else []) + From(s[1..], source)
  }

  lemma {:induction false} FromAppend(a: seq<Item>, b: seq<Item>, source: nat)
    ensures From(a + b, source) == From(a, source) + From(b, source)
  {
    if a == [] {
      assert a + b == b;
    } else {
      assert (a + b)[1..] == a[1..] + b;
      FromAppend(a[1..], b, source);
      var first := if a[0].msg.source == source then [a[0]] else [];
      assert From(a + b, source) == first + (From(a[1..], source) + From(b, source));
    }
  }

  /** All items of the source were enqueued by thread `p`. */
  ghost predicate Through(s: seq<Item>, source: nat, p: nat) {
    forall i :: 0 <= i < |s| && s[i].msg.source == source ==> s[i].producer == p
  }

  ghost predicate OneThread(s: seq<Item>, source: nat) {
    exists p :: Through(s, source, p)
  }

  lemma {:induction false} FromThrough(s: seq<Item>, source: nat, p: nat)
    requires Through(s, source, p)
    ensures From(s, source) == From(Of(s, p), source)
  {
    if s != [] {
      FromThrough(s[1..], source, p);
      var rest := Of(s[1..], p);
      if s[0].producer == p {
        assert ([s[0]] + rest)[1..] == rest;
      } else {
        assert [] + rest == rest;
      }
    }
  }

  lemma {:induction false} OfMembers(s: seq<Item>, p: nat)
    ensures forall i :: 0 <= i < |Of(s, p)| ==> Of(s, p)[i].producer == p
    ensures Of(Of(s, p), p) == Of(s, p)
  {
    if s != [] {
      OfMembers(s[1..], p);
      var rest := Of(s[1..], p);
      if s[0].producer == p {
        assert ([s[0]] + rest)[1..] == rest;
      } else {
        assert [] + rest == rest;
      }
    }
  }

  lemma {:induction false} FromMembers(s: seq<Item>, source: nat)
    ensures forall x :: x in From(s, source) <==> x in s && x.msg.source == source
  {
    if s != [] {
      FromMembers(s[1..], source);
      assert s == [s[0]] + s[1..];
    }
  }

  /** In the items of the source, m[i] comes before m[j]. */
  lemma TwoPlaces(m: seq<Item>, source: nat, i: nat, j: nat) returns (a: nat, b: nat)
    requires i < j < |m| && m[i].msg.source == source && m[j].msg.source == source
    ensures a < b < |From(m, source)| && From(m, source)[a] == m[i] && From(m, source)[b] == m[j]
  {
    var front := From(m[..j], source);
    FromAppend(m[..j], m[j..], source);
    assert m == m[..j] + m[j..];
    assert From(m[j..], source) == [m[j]] + From(m[j..][1..], source);
    b := |front|;
    FromMembers(m[..j], source);
    assert m[..j][i] == m[i];
    assert m[i] in front;
    a :| 0 <= a < |front| && front[a] == m[i];
  }

  // ----- Which thread is served next ------------------------------------------------------------------

  /** Every sub-queue that has items is in the list, which names none twice. */
  ghost predicate Lists(list: seq<nat>, m: seq<Item>) {
    && (forall i, j :: 0 <= i < j < |list| ==> list[i] != list[j])
    && (forall i :: 0 <= i < |m| ==> m[i].producer in list)
  }

  /** How many items each sub-queue of the list has. */
  function Sizes(m: seq<Item>, list: seq<nat>): (sizes: seq<nat>)
    ensures |sizes| == |list| && forall k :: 0 <= k < |list| ==> sizes[k] == |Of(m, list[k])|
  {
    seq(|list|, k requires 0 <= k < |list| => |Of(m, list[k])|)
  }

  /** The places before `k` where sub-queues are not empty. */
  function FilledBefore(sizes: seq<nat>, k: nat): set<nat>
    requires k <= |sizes|
  {
    set j: nat | j < k && sizes[j] > 0
  }

  /** One of the first three sub-queues that are not empty stands at place `k`. */
  predicate Candidate(sizes: seq<nat>, k: nat) {
    k < |sizes| && sizes[k] > 0 && |FilledBefore(sizes, k)| < 3
  }

  /** No candidate before `n` is longer than the one at `k`, and none in front of it is as long. */
  ghost predicate Longest(sizes: seq<nat>, n: nat, k: nat) {
    k < n && Candidate(sizes, k)
    && forall j: nat :: j < n && Candidate(sizes, j) ==>
         sizes[j] <= sizes[k] && (j < k ==> sizes[j] < sizes[k])
  }

  /** Item `i` is what try_dequeue yields: the oldest of the longest of the first three sub-queues that
      are not empty. */
  ghost predicate Takes(m: seq<Item>, list: seq<nat>, i: nat) {
    FirstOf(m, i) && exists k: nat :: k < |list| && TakesAt(m, list, i, k)
  }

  ghost predicate TakesAt(m: seq<Item>, list: seq<nat>, i: nat, k: nat)
    requires i < |m| && k < |list|
  {
    list[k] == m[i].producer && Longest(Sizes(m, list), |list|, k)
  }

  /** The same in full: the sub-queue at `k` has fewer than three that are not empty in front of it, and of
      all such it is the longest and the first among equals. */
  ghost predicate IsBest(sizes: seq<nat>, k: nat)
    requires k < |sizes|
  {
    && sizes[k] > 0 && |set l: nat | l < k && sizes[l] > 0| < 3
    && forall j: nat :: j < |sizes| && sizes[j] > 0 && |set l: nat | l < j && sizes[l] > 0| < 3 ==>
         sizes[j] <= sizes[k] && (j < k ==> sizes[j] < sizes[k])
  }

  ghost predicate IsOldestOfBest(m: seq<Item>, list: seq<nat>, i: nat, k: nat)
    requires k < |list|
  {
    && i < |m| && m[i].producer == list[k] && (forall j :: 0 <= j < i ==> m[j].producer != list[k])
    && IsBest(Sizes(m, list), k)
  }

  lemma Spelled(sizes: seq<nat>, k: nat)
    requires k < |sizes| && Longest(sizes, |sizes|, k)
    ensures IsBest(sizes, k)
  {
    assert (set l: nat | l < k && sizes[l] > 0) == FilledBefore(sizes, k);
    forall j: nat | j < |sizes| && sizes[j] > 0 && |set l: nat | l < j && sizes[l] > 0| < 3
      ensures Candidate(sizes, j)
    {
      assert (set l: nat | l < j && sizes[l] > 0) == FilledBefore(sizes, j);
    }
  }

  /** The scan of try_dequeue over the list of sub-queues, with nobody else at work: it finds nothing
      exactly when there is nothing. */
  method TryDequeue(m: seq<Item>, list: seq<nat>) returns (found: bool, i: nat)
    requires Lists(list, m)
    ensures found == (m != []) && (found ==> Takes(m, list, i))
    ensures found ==> exists k: nat :: k < |list| && IsOldestOfBest(m, list, i, k)
  {
    var n, best := Score(Sizes(m, list));
    found := n > 0;
    NothingListed(m, list);
    if found {
      BestTaken(m, list, best);
      i := First(m, list[best]);
    } else {
      i := 0;
    }
  }

  /** The scan stops at the third sub-queue that is not empty and remembers the longest. */
  method Score(sizes: seq<nat>) returns (n: nat, best: nat)
    ensures n == 0 <==> NoneBefore(sizes, |sizes|)
    ensures n > 0 ==> Longest(sizes, |sizes|, best)
  {
    var bestSize, at := 0, 0;
    n, best := 0, 0;
    assert FilledBefore(sizes, 0) == {};
    while n < 3 && at < |sizes|
      invariant at <= |sizes| && Scanned(sizes, at, n, best, bestSize)
    {
      ScannedNext(sizes, at, n, best, bestSize);
      if sizes[at] > 0 {
        if sizes[at] > bestSize {
          bestSize, best := sizes[at], at;
        }
        n := n + 1;
      }
      at := at + 1;
    }
    AllScanned(sizes, at, n, best, bestSize);
  }

  lemma BestTaken(m: seq<Item>, list: seq<nat>, k: nat)
    requires k < |list| && Longest(Sizes(m, list), |list|, k)
    ensures Of(m, list[k]) != [] && Takes(m, list, First(m, list[k]))
    ensures IsOldestOfBest(m, list, First(m, list[k]), k)
  {
    assert TakesAt(m, list, First(m, list[k]), k);
    Spelled(Sizes(m, list), k);
  }

  /** `n` sub-queues before place `at` are not empty, and the longest of them is at `k`. */
  ghost predicate Scanned(sizes: seq<nat>, at: nat, n: nat, k: nat, size: nat)
    requires at <= |sizes|
  {
    && n == |FilledBefore(sizes, at)| <= 3
    && (if n == 0 then size == 0 && NoneBefore(sizes, at) else Longest(sizes, at, k) && size == sizes[k])
  }

  ghost predicate NoneBefore(sizes: seq<nat>, n: nat)
    requires n <= |sizes|
  {
    forall j :: 0 <= j < n ==> sizes[j] == 0
  }

  lemma ScannedNext(sizes: seq<nat>, at: nat, n: nat, k: nat, size: nat)
    requires at < |sizes| && Scanned(sizes, at, n, k, size) && n < 3
    ensures
      if sizes[at] == 0 then Scanned(sizes, at + 1, n, k, size)
      else if sizes[at] > size then Scanned(sizes, at + 1, n + 1, at, sizes[at])
      else Scanned(sizes, at + 1, n + 1, k, size)
  {
    OneMoreFilled(sizes, at);
    if n == 0 && sizes[at] > 0 {
      assert forall j: nat :: j < at ==> !Candidate(sizes, j);
    }
  }

  lemma OneMoreFilled(sizes: seq<nat>, k: nat)
    requires k < |sizes|
    ensures |FilledBefore(sizes, k + 1)| == |FilledBefore(sizes, k)| + if sizes[k] == 0 then 0 else 1
  {
    var here := if sizes[k] == 0 then {} else {k};
    assert FilledBefore(sizes, k + 1) == FilledBefore(sizes, k) + here;
  }

  lemma AllScanned(sizes: seq<nat>, at: nat, n: nat, k: nat, size: nat)
    requires at <= |sizes| && Scanned(sizes, at, n, k, size) && (n >= 3 || at == |sizes|)
    ensures n == 0 <==> NoneBefore(sizes, |sizes|)
    ensures n > 0 ==> Longest(sizes, |sizes|, k)
  {
    if n > 0 {
      NoneBeyond(sizes, at, k);
    }
  }

  /** The scan ends at the end of the list or behind the third candidate. */
  lemma NoneBeyond(sizes: seq<nat>, n: nat, k: nat)
    requires n <= |sizes| && Longest(sizes, n, k)
    requires n == |sizes| || |FilledBefore(sizes, n)| >= 3
    ensures Longest(sizes, |sizes|, k)
  {
    forall j: nat | n <= j < |sizes|
      ensures !Candidate(sizes, j)
    {
      SubsetSize(FilledBefore(sizes, n), FilledBefore(sizes, j));
    }
  }

  lemma NothingListed(m: seq<Item>, list: seq<nat>)
    requires Lists(list, m)
    ensures m == [] <==> NoneBefore(Sizes(m, list), |list|)
  {
    if m != [] {
      var j :| 0 <= j < |list| && list[j] == m[0].producer;
      assert Of(m, list[j]) != [];
    }
  }

  /** Where there is a candidate there is a longest one. */
  lemma {:induction false} SomeLongest(sizes: seq<nat>, n: nat, j: nat) returns (k: nat)
    requires j < n <= |sizes| && Candidate(sizes, j)
    ensures Longest(sizes, n, k)
    decreases n
  {
    if i: nat :| i < n - 1 && Candidate(sizes, i) {
      k := SomeLongest(sizes, n - 1, i);
      if Candidate(sizes, n - 1) && sizes[n - 1] > sizes[k] {
        k := n - 1;
      }
    } else {
      k := j;
    }
  }

  lemma SomeTaken(m: seq<Item>, list: seq<nat>) returns (i: nat)
    requires Lists(list, m) && m != []
    ensures Takes(m, list, i)
  {
    var sizes := Sizes(m, list);
    NothingListed(m, list);
    var j: nat := FirstFilled(sizes);
    var k := SomeLongest(sizes, |list|, j);
    BestTaken(m, list, k);
    i := First(m, list[k]);
  }

  lemma {:induction false} FirstFilled(sizes: seq<nat>) returns (j: nat)
    requires !NoneBefore(sizes, |sizes|)
    ensures Candidate(sizes, j)
  {
    j := 0;
    while sizes[j] == 0
      invariant j < |sizes| && NoneBefore(sizes, j)
      decreases |sizes| - j
    {
      j := j + 1;
    }
    assert FilledBefore(sizes, j) == {};
  }

  /** The mailbox is emptied in the order `d` by try_dequeue. */
  ghost predicate Served(m: seq<Item>, list: seq<nat>, d: seq<Item>)
    decreases |d|
  {
    if d == [] then m == []
    else exists i: nat :: Takes(m, list, i) && m[i] == d[0] && Served(Without(m, i), list, d[1..])
  }

  /** Its choices are among those that keep each thread's order. */
  lemma {:induction false} ServedLegally(m: seq<Item>, list: seq<nat>, d: seq<Item>)
    requires Served(m, list, d)
    ensures Legal(m, d)
    decreases |d|
  {
    if d != [] {
      var i: nat :| Takes(m, list, i) && m[i] == d[0] && Served(Without(m, i), list, d[1..]);
      ServedLegally(Without(m, i), list, d[1..]);
    }
  }

  /** Every mailbox is emptied in some order. */
  lemma {:induction false} ServeAll(m: seq<Item>, list: seq<nat>) returns (d: seq<Item>)
    requires Lists(list, m)
    ensures Served(m, list, d)
    decreases |m|
  {
    if m == [] {
      d := [];
    } else {
      var i := SomeTaken(m, list);
      var rest := ServeAll(Without(m, i), list);
      d := [m[i]] + rest;
      assert d[1..] == rest;
    }
  }

  lemma OfTaken(m: seq<Item>, i: nat, q: nat)
    requires FirstOf(m, i)
    ensures Of(m, q) == (if q == m[i].producer then [m[i]] else []) + Of(Without(m, i), q)
  {
    TakeFirst(m, i);
    assert Agree(m, [m[i]] + Without(m, i), q);
    OfAppend([m[i]], Without(m, i), q);
    OfOne(m[i], q);
  }

  /** A thread whose sub-queue is first in the list and stays the longest is served alone. */
  lemma {:induction false} Favourite(m: seq<Item>, list: seq<nat>, d: seq<Item>, p: nat, k: nat)
    requires Served(m, list, d) && list != [] && list[0] == p && k <= |Of(m, p)|
    requires forall q :: q != p ==> |Of(m, q)| + k <= |Of(m, p)|
    ensures k <= |d| && d[..k] == Of(m, p)[..k]
    decreases k
  {
    if k > 0 {
      var i := FavouriteServed(m, list, d, p);
      var rest := Without(m, i);
      forall q
        ensures Of(m, q) == (if q == p then [m[i]] else []) + Of(rest, q)
      {
        OfTaken(m, i, q);
      }
      Favourite(rest, list, d[1..], p, k - 1);
      OneInFront(m[i], d, Of(m, p), Of(rest, p), k);
    }
  }

  lemma OneInFront(x: Item, d: seq<Item>, s: seq<Item>, rest: seq<Item>, k: nat)
    requires d != [] && d[0] == x && s == [x] + rest && 0 < k <= |s|
    requires k - 1 <= |d[1..]| && d[1..][..k - 1] == rest[..k - 1]
    ensures k <= |d| && d[..k] == s[..k]
  {
    assert d[..k] == [d[0]] + d[1..][..k - 1];
    assert s[..k] == [x] + rest[..k - 1];
  }

  lemma FavouriteServed(m: seq<Item>, list: seq<nat>, d: seq<Item>, p: nat) returns (i: nat)
    requires Served(m, list, d) && list != [] && list[0] == p && Of(m, p) != []
    requires forall q :: q != p ==> |Of(m, q)| <= |Of(m, p)|
    ensures FirstOf(m, i) && m[i].producer == p && d != [] && m[i] == d[0] && Served(Without(m, i), list, d[1..])
  {
    i :| Takes(m, list, i) && m[i] == d[0] && Served(Without(m, i), list, d[1..]);
    FavouriteTaken(m, list, i, p);
  }

  lemma FavouriteTaken(m: seq<Item>, list: seq<nat>, i: nat, p: nat)
    requires Takes(m, list, i) && list != [] && list[0] == p && Of(m, p) != []
    requires forall q :: q != p ==> |Of(m, q)| <= |Of(m, p)|
    ensures m[i].producer == p
  {
    var sizes := Sizes(m, list);
    assert FilledBefore(sizes, 0) == {} && sizes[0] > 0;
    assert Candidate(sizes, 0);
    var k: nat :| k < |list| && TakesAt(m, list, i, k);
  }

  /** A list of sub-queues with `p` in front. */
  lemma {:induction false} ListFrom(m: seq<Item>, p: nat) returns (list: seq<nat>)
    ensures Lists(list, m) && list != [] && list[0] == p
  {
    if m == [] {
      list := [p];
    } else {
      var front, x := m[..|m| - 1], m[|m| - 1];
      assert m == front + [x];
      list := ListFrom(front, p);
      if x.producer !in list {
        list := list + [x.producer];
      }
    }
  }

  function Filler(n: nat, x: Item): (r: seq<Item>)
    ensures |r| == n && forall i :: 0 <= i < n ==> r[i] == x
  {
    seq(n, _ => x)
  }

  lemma {:induction false} OfAll(s: seq<Item>, p: nat)
    requires forall i :: 0 <= i < |s| ==> s[i].producer == p
    ensures Of(s, p) == s
  {
    if s != [] {
      OfAll(s[1..], p);
    }
  }

  lemma {:induction false} OfLength(s: seq<Item>, p: nat)
    ensures |Of(s, p)| <= |s|
  {
    if s != [] {
      OfLength(s[1..], p);
    }
  }

  lemma {:induction false} FromNone(s: seq<Item>, source: nat)
    requires forall i :: 0 <= i < |s| ==> s[i].msg.source != source
    ensures From(s, source) == []
  {
    if s != [] {
      FromNone(s[1..], source);
    }
  }

  /** `m` and whatever others put into the mailbox besides is emptied in the order `d`. */
  ghost predicate Delivery(m: seq<Item>, more: seq<Item>, list: seq<nat>, d: seq<Item>, source: nat) {
    && (forall i :: 0 <= i < |more| ==> more[i].msg.source != source)
    && Lists(list, m + more) && Served(m + more, list, d)
  }

  /** An actor's messages keep their order in every delivery, whatever else is in the mailbox and however
      its sub-queues are listed, if and only if one thread enqueued them all.  An actor that is
      dispatched by different workers in turn enqueues from several. */
  lemma OrderKeptIff(m: seq<Item>, source: nat)
    ensures (forall more, list, d :: Delivery(m, more, list, d, source) ==> From(d, source) == From(m, source))
            <==> OneThread(m, source)
  {
    if OneThread(m, source) {
      var p :| Through(m, source, p);
      forall more, list, d | Delivery(m, more, list, d, source)
        ensures From(d, source) == From(m, source)
      {
        ServedLegally(m + more, list, d);
        LegalIff(m + more, d);
        OneThreadKeeps(m + more, d, source, p);
        FromAppend(m, more, source);
        FromNone(more, source);
      }
    } else {
      var more, list, d := OutOfOrder(m, source);
    }
  }

  lemma OneThreadKeeps(m: seq<Item>, d: seq<Item>, source: nat, p: nat)
    requires Shuffle(m, d) && Through(m, source, p)
    ensures From(d, source) == From(m, source)
  {
    ShuffleSame(m, d);
    forall i | 0 <= i < |d| && d[i].msg.source == source
      ensures d[i].producer == p
    {
      assert d[i] in multiset(d);
      assert d[i] in m;
    }
    FromThrough(m, source, p);
    FromThrough(d, source, p);
    assert Agree(m, d, p);
  }

  /** Two threads: some delivery turns the actor's messages around.  The thread of a later message is
      listed first and has many more messages waiting, so all of its own come out first. */
  lemma OutOfOrder(m: seq<Item>, source: nat) returns (more: seq<Item>, list: seq<nat>, d: seq<Item>)
    requires !OneThread(m, source)
    ensures Delivery(m, more, list, d, source) && From(d, source) != From(m, source)
  {
    assert !Through(m, source, 0);
    var i :| 0 <= i < |m| && m[i].msg.source == source && m[i].producer != 0;
    assert !Through(m, source, m[i].producer);
    var j :| 0 <= j < |m| && m[j].msg.source == source && m[j].producer != m[i].producer;
    var x, y := if i < j then i else j, if i < j then j else i;
    var p := m[y].producer;
    more := Filler(|m|, Item(p, Msg(source + 1, 0, 0, None)));
    list := ListFrom(m + more, p);
    d := ServeAll(m + more, list);
    Crowded(m, more, list, d, p);
    ServedLegally(m + more, list, d);
    LegalIff(m + more, d);
    ShuffleSame(m + more, d);
    var a, b := TwoPlaces(m, source, x, y);
    TurnedAround(m, more, d, source, p, a, b);
  }

  lemma Crowded(m: seq<Item>, more: seq<Item>, list: seq<nat>, d: seq<Item>, p: nat)
    requires |more| == |m| && (forall i :: 0 <= i < |more| ==> more[i].producer == p)
    requires Served(m + more, list, d) && list != [] && list[0] == p
    ensures Of(m, p) <= d
  {
    OfAll(more, p);
    OfAppend(m, more, p);
    forall q | q != p
      ensures |Of(m + more, q)| + |Of(m, p)| <= |Of(m + more, p)|
    {
      OfAppend(m, more, q);
      OfNone(more, q);
      OfLength(m, q);
    }
    Favourite(m + more, list, d, p, |Of(m, p)|);
  }

  /** Behind the items of `p`, none of its messages from the source is left. */
  lemma NotLeft(m: seq<Item>, more: seq<Item>, rest: seq<Item>, x: Item, source: nat, p: nat)
    requires multiset(Of(m, p) + rest) == multiset(m + more)
    requires forall i :: 0 <= i < |more| ==> more[i].msg.source != source
    requires x in rest && x.msg.source == source
    ensures x.producer != p
  {
    assert multiset(Of(m, p) + rest) == multiset(Of(m, p)) + multiset(rest);
    assert multiset(m + more) == multiset(m) + multiset(more);
    assert x in multiset(rest) && x !in multiset(more);
    assert (multiset(Of(m, p)) + multiset(rest))[x] == (multiset(m) + multiset(more))[x];
    if x.producer == p {
      OfCount(m, x);
    }
  }

  lemma TurnedAround(m: seq<Item>, more: seq<Item>, d: seq<Item>, source: nat, p: nat, a: nat, b: nat)
    requires Of(m, p) <= d && multiset(d) == multiset(m + more)
    requires forall i :: 0 <= i < |more| ==> more[i].msg.source != source
    requires a < b < |From(m, source)|
    requires From(m, source)[a].producer != p && From(m, source)[b].producer == p
    ensures From(d, source) != From(m, source)
  {
    var rest := d[|Of(m, p)|..];
    assert d == Of(m, p) + rest;
    FromAppend(Of(m, p), rest, source);
    var early: seq<Item>, late: seq<Item> := From(Of(m, p), source), From(rest, source);
    OfMembers(m, p);
    FromMembers(Of(m, p), source);
    forall k | 0 <= k < |early|
      ensures early[k].producer == p
    {
      assert early[k] in early;
    }
    forall k | 0 <= k < |late|
      ensures late[k].producer != p
    {
      assert late[k] in late;
      FromMembers(rest, source);
      NotLeft(m, more, rest, late[k], source, p);
    }
    NotSorted(From(m, source), early, late, a, b, p);
  }

  lemma NotSorted(s: seq<Item>, early: seq<Item>, late: seq<Item>, a: nat, b: nat, p: nat)
    requires a < b < |s| && s[a].producer != p && s[b].producer == p
    requires forall k :: 0 <= k < |early| ==> early[k].producer == p
    requires forall k :: 0 <= k < |late| ==> late[k].producer != p
    ensures early + late != s
  {
  }

  /** Such an input: an actor sends 1 from one worker and 2 from another, and 2 arrives first when the
      other worker's sub-queue is listed first. */
  lemma TwoWorkers()
    ensures
      var one := Item(1, Msg(5, 1, 0, None));
      var two := Item(2, Msg(5, 2, 0, None));
      Served([one, two], [2, 1], [two, one])
  {
    ServeTwo(Item(1, Msg(5, 1, 0, None)), Item(2, Msg(5, 2, 0, None)));
  }

  /** Two sub-queues of one item each are served in the order of the list. */
  lemma ServeTwo(x: Item, y: Item)
    requires x.producer != y.producer
    ensures Served([x, y], [y.producer, x.producer], [y, x])
  {
    var m, list := [x, y], [y.producer, x.producer];
    TakesSecond(x, y);
    assert Without(m, 1) == [x] && [y, x][1..] == [x];
    var d := ServeAll([x], list);
    LastServed(x, list, d);
    assert Served(Without(m, 1), list, [y, x][1..]);
  }

  lemma TakesSecond(x: Item, y: Item)
    requires x.producer != y.producer
    ensures Takes([x, y], [y.producer, x.producer], 1)
  {
    var m, list := [x, y], [y.producer, x.producer];
    OneEach(x, y);
    var sizes := Sizes(m, list);
    assert FilledBefore(sizes, 0) == {} && sizes[0] == 1 && sizes[1] == 1;
    assert Candidate(sizes, 0) && Longest(sizes, |list|, 0);
    assert TakesAt(m, list, 1, 0);
  }

  lemma OneEach(x: Item, y: Item)
    requires x.producer != y.producer
    ensures Of([x, y], x.producer) == [x] && Of([x, y], y.producer) == [y]
    ensures forall q :: q != x.producer && q != y.producer ==> Of([x, y], q) == []
  {
    assert [x, y] == [x] + [y];
    forall q
      ensures Of([x, y], q) == Of([x], q) + Of([y], q)
      ensures Of([x], q) == (if x.producer == q then [x] else [])
      ensures Of([y], q) == (if y.producer == q then [y] else [])
    {
      OfAppend([x], [y], q);
      OfOne(x, q);
      OfOne(y, q);
    }
  }

  lemma LastServed(x: Item, list: seq<nat>, d: seq<Item>)
    requires Served([x], list, d)
    ensures d == [x]
  {
    var i: nat :| Takes([x], list, i) && [x][i] == d[0] && Served(Without([x], i), list, d[1..]);
    assert i == 0 && Without([x], 0) == [];
    assert d == [d[0]] + d[1..];
  }
}
