/** Accounts of the actor system: every message pushed, by whom and why, and every message that was not
    delivered. */
module Ledger {
  import opened Wrappers
  import opened Mailbox

  const PTYPE_RESPONSE: int := 1
  const PTYPE_ERROR: int := 7

  /** Why a message is pushed: somebody sent it, it answers an undelivered request, or it warns the
      logger of an overloaded mailbox. */
  datatype Cause = Asked | Reply | Overload

  /** One call of push_message; `item.producer` is the calling thread. */
  datatype Post = Post(dest: nat, item: Item, cause: Cause)

  /** A message that was not delivered: drained from the mailbox of `at`, or refused by it; `thread` is
      the one that did it. */
  datatype Discard = Discard(at: nat, drained: bool, item: Item, thread: nat)

  /** A request that must be answered when it is not delivered. */
  predicate Bounceable(m: Msg) {
    m.session != 0 && m.source != 0 && m.kind != PTYPE_RESPONSE && m.kind != PTYPE_ERROR
  }

  function ErrorReply(session: int): Msg {
    Msg(0, session, PTYPE_ERROR, None)
  }

  function Warning(handle: nat): Msg {
    Msg(handle, 0, PTYPE_ERROR, None)
  }

  /** The error due for a discarded message. */
  function ReplyTo(d: Discard): seq<Post> {
    if Bounceable(d.item.msg)
    then [Post(d.item.msg.source, Item(d.thread, ErrorReply(d.item.msg.session)), Reply)] else []
  }

  function BufferOf(m: Msg): multiset<nat> {
    if m.buffer.Some? then multiset{m.buffer.value} else multiset{}
  }

  // ----- Columns --------------------------------------------------------------------------------------

  function OfCause(s: seq<Post>, c: Cause): seq<Post> {
    if s == [] then []
    else OfCause(s[..|s| - 1], c) + if s[|s| - 1].cause == c then [s[|s| - 1]] else []
  }

  /** The items pushed to `h`. */
  function SentTo(s: seq<Post>, h: nat): multiset<Item> {
    if s == [] then multiset{}
    else SentTo(s[..|s| - 1], h) + if s[|s| - 1].dest == h then multiset{s[|s| - 1].item} else multiset{}
  }

  /** How many warnings about `h` are among the posts. */
  function CountAbout(s: seq<Post>, h: nat): nat {
    if s == [] then 0
    else CountAbout(s[..|s| - 1], h) + if IsWarning(s[|s| - 1], h) then 1 else 0
  }

  predicate IsWarning(p: Post, h: nat) {
    p.cause == Overload && p.item.msg == Warning(h)
  }

  function Replies(ds: seq<Discard>): seq<Post> {
    if ds == [] then [] else Replies(ds[..|ds| - 1]) + ReplyTo(ds[|ds| - 1])
  }

  function RefusedAt(ds: seq<Discard>, h: nat): multiset<Item> {
    if ds == [] then multiset{}
    else
      var d := ds[|ds| - 1];
      RefusedAt(ds[..|ds| - 1], h)
      + if !d.drained && d.at == h then multiset{d.item} else multiset{}
  }

  function DrainedAt(ds: seq<Discard>, h: nat): seq<Item> {
    if ds == [] then []
    else
      var d := ds[|ds| - 1];
      DrainedAt(ds[..|ds| - 1], h) + if d.drained && d.at == h then [d.item] else []
  }

  /** Owned buffers of discarded messages. */
  function Buffers(ds: seq<Discard>): multiset<nat> {
    if ds == [] then multiset{} else Buffers(ds[..|ds| - 1]) + BufferOf(ds[|ds| - 1].item.msg)
  }

  lemma OneMorePost(s: seq<Post>, p: Post, c: Cause, h: nat)
    ensures OfCause(s + [p], c) == OfCause(s, c) + if p.cause == c then [p] else []
    ensures SentTo(s + [p], h) == SentTo(s, h) + if p.dest == h then multiset{p.item} else multiset{}
    ensures CountAbout(s + [p], h) == CountAbout(s, h) + if IsWarning(p, h) then 1 else 0
  {
    assert (s + [p])[..|s|] == s;
  }

  lemma OneMoreDiscard(ds: seq<Discard>, d: Discard, h: nat)
    ensures Replies(ds + [d]) == Replies(ds) + ReplyTo(d)
    ensures RefusedAt(ds + [d], h)
            == RefusedAt(ds, h) + if !d.drained && d.at == h then multiset{d.item} else multiset{}
    ensures DrainedAt(ds + [d], h) == DrainedAt(ds, h) + if d.drained && d.at == h then [d.item] else []
    ensures Buffers(ds + [d]) == Buffers(ds) + BufferOf(d.item.msg)
  {
    assert (ds + [d])[..|ds|] == ds;
  }

  lemma {:induction false} OfCauseAppend(a: seq<Post>, b: seq<Post>, c: Cause)
    ensures OfCause(a + b, c) == OfCause(a, c) + OfCause(b, c)
    decreases |b|
  {
    if b == [] {
      assert a + b == a;
    } else {
      var front, last := b[..|b| - 1], b[|b| - 1];
      assert a + b == a + front + [last] && b == front + [last];
      OfCauseAppend(a, front, c);
      OneMorePost(a + front, last, c, 0);
      OneMorePost(front, last, c, 0);
    }
  }

  lemma {:induction false} RepliesAppend(a: seq<Discard>, b: seq<Discard>)
    ensures Replies(a + b) == Replies(a) + Replies(b)
    decreases |b|
  {
    if b == [] {
      assert a + b == a;
    } else {
      var front, last := b[..|b| - 1], b[|b| - 1];
      assert a + b == a + front + [last] && b == front + [last];
      RepliesAppend(a, front);
      OneMoreDiscard(a + front, last, 0);
      OneMoreDiscard(front, last, 0);
    }
  }

  /** The discarded messages with a session and a source that are neither responses (1) nor errors (7) are
      answered, in order and each once, by an error (7) to their source, and no other reply is among the
      posts: `at` tells where the answer to each is. */
  ghost predicate Matched(posts: seq<Post>, ds: seq<Discard>, at: map<nat, nat>) {
    && (forall i: nat :: i in at <==>
          i < |ds| && ds[i].item.msg.session != 0 && ds[i].item.msg.source != 0
          && ds[i].item.msg.kind != 1 && ds[i].item.msg.kind != 7)
    && (forall i :: i in at ==>
          && at[i] < |posts|
          && posts[at[i]] == Post(ds[i].item.msg.source,
                                  Item(ds[i].thread, Msg(0, ds[i].item.msg.session, 7, None)), Reply))
    && (forall i, j :: i in at && j in at && i < j ==> at[i] < at[j])
    && (forall k :: 0 <= k < |posts| && posts[k].cause == Reply ==> k in at.Values)
  }

  lemma MatchedPost(posts: seq<Post>, p: Post, ds: seq<Discard>, at: map<nat, nat>)
    requires Matched(posts, ds, at) && p.cause != Reply
    ensures Matched(posts + [p], ds, at)
  {
  }

  lemma MatchedDiscard(posts: seq<Post>, ds: seq<Discard>, d: Discard, at: map<nat, nat>)
    requires Matched(posts, ds, at) && !Bounceable(d.item.msg)
    ensures Matched(posts, ds + [d], at)
  {
  }

  lemma MatchedBoth(posts: seq<Post>, ds: seq<Discard>, d: Discard, at: map<nat, nat>)
    requires Matched(posts, ds, at) && Bounceable(d.item.msg)
    ensures Matched(posts + ReplyTo(d), ds + [d], at[|ds| := |posts|])
  {
    var more := at[|ds| := |posts|];
    forall k | 0 <= k < |posts| + 1 && (posts + ReplyTo(d))[k].cause == Reply
      ensures k in more.Values
    {
      if k < |posts| {
        assert posts[k].cause == Reply;
        var i :| i in at && at[i] == k;
        assert i in more && more[i] == k;
      } else {
        assert more[|ds|] == k;
      }
    }
  }

  /** As many replies as are due, in the order they are due. */
  lemma {:induction false} MatchReplies(posts: seq<Post>, ds: seq<Discard>) returns (at: map<nat, nat>)
    requires OfCause(posts, Reply) == Replies(ds)
    ensures Matched(posts, ds, at)
    decreases |posts| + |ds|
  {
    var n, m := |posts| - 1, |ds| - 1;
    if n >= 0 && posts[n].cause != Reply {
      at := MatchReplies(posts[..n], ds);
      MatchedPost(posts[..n], posts[n], ds, at);
      assert posts[..n] + [posts[n]] == posts;
    } else if m >= 0 && ReplyTo(ds[m]) == [] {
      at := MatchReplies(posts, ds[..m]);
      MatchedDiscard(posts, ds[..m], ds[m], at);
      assert ds[..m] + [ds[m]] == ds;
    } else if n >= 0 && m >= 0 {
      SameLast(OfCause(posts[..n], Reply), posts[n], Replies(ds[..m]), ReplyTo(ds[m])[0]);
      at := MatchReplies(posts[..n], ds[..m]);
      MatchedBoth(posts[..n], ds[..m], ds[m], at);
      at := at[m := n];
      assert posts[..n] + [posts[n]] == posts && ds[..m] + [ds[m]] == ds;
    } else {
      at := map[];
    }
  }

  lemma SameLast(a: seq<Post>, x: Post, b: seq<Post>, y: Post)
    requires a + [x] == b + [y]
    ensures a == b && x == y
  {
    assert (a + [x])[..|a|] == a && (b + [y])[..|b|] == b;
  }

  lemma {:induction false} WarningsOfCause(s: seq<Post>, h: nat)
    ensures CountAbout(s, h) == CountAbout(OfCause(s, Overload), h)
  {
    if s != [] {
      var front, last := s[..|s| - 1], s[|s| - 1];
      WarningsOfCause(front, h);
      var kept := OfCause(front, Overload);
      if last.cause == Overload {
        assert OfCause(s, Overload) == kept + [last];
        OneMorePost(kept, last, Overload, h);
      } else {
        assert OfCause(s, Overload) == kept;
      }
    }
  }

  // ----- A buffer that one message carries ------------------------------------------------------------

  /** The post at `k` is the only one that carries buffer `b`. */
  ghost predicate OnlyCarrier(s: seq<Post>, b: nat, k: nat) {
    && k < |s| && s[k].item.msg.buffer == Some(b)
    && forall i :: 0 <= i < |s| && s[i].item.msg.buffer == Some(b) ==> i == k
  }

  /** Then, of all items with that buffer, only its own was pushed, once, to its destination. */
  lemma {:induction false} CarriedOnce(s: seq<Post>, b: nat, k: nat, n: nat, h: nat, x: Item)
    requires OnlyCarrier(s, b, k) && n <= |s| && x.msg.buffer == Some(b)
    ensures SentTo(s[..n], h)[x] == if k < n && h == s[k].dest && x == s[k].item then 1 else 0
    decreases n
  {
    if n > 0 {
      CarriedOnce(s, b, k, n - 1, h, x);
      assert s[..n] == s[..n - 1] + [s[n - 1]];
      OneMorePost(s[..n - 1], s[n - 1], Asked, h);
    }
  }

  lemma {:induction false} DiscardListed(ds: seq<Discard>, i: nat)
    requires i < |ds|
    ensures if ds[i].drained then ds[i].item in DrainedAt(ds, ds[i].at)
            else RefusedAt(ds, ds[i].at)[ds[i].item] > 0
    decreases |ds|
  {
    var front, last := ds[..|ds| - 1], ds[|ds| - 1];
    assert ds == front + [last];
    OneMoreDiscard(front, last, ds[i].at);
    if i < |ds| - 1 {
      DiscardListed(front, i);
    }
  }

  /** When all discards with buffer `b` are of item `x` at `h`, they are counted there. */
  lemma {:induction false} BufferCount(ds: seq<Discard>, b: nat, h: nat, x: Item)
    requires x.msg.buffer == Some(b)
    requires forall i :: 0 <= i < |ds| && ds[i].item.msg.buffer == Some(b) ==> ds[i].at == h && ds[i].item == x
    ensures Buffers(ds)[b] == RefusedAt(ds, h)[x] + multiset(DrainedAt(ds, h))[x]
    decreases |ds|
  {
    if ds != [] {
      var front, last := ds[..|ds| - 1], ds[|ds| - 1];
      assert ds == front + [last];
      BufferCount(front, b, h, x);
      OneMoreDiscard(front, last, h);
    }
  }
}
