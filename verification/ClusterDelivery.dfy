/** Delivery of cluster requests end to end: packets of many requests interleaved on one connection,
    the byte stream cut into arbitrary chunks, framing, unpacking and the agent's table of
    unfinished requests (service/clusteragent.lua). */
module ClusterDelivery {
  import opened Wrappers
  import opened Numbers
  import opened Bytes
  import opened Netpack
  import opened Cluster

  /** An unfinished multi-part request; the address is missing when no announcement came. */
  datatype Partial = Partial(addr: Option<Address>, push: bool, slots: seq<Slot>)

  datatype Event =
    | Deliver(addr: Option<Address>, session: nat, push: bool, msg: Str)
    | Reject(session: nat)      // the reply "Invalid large req"

  type Table = map<nat, Partial>

  // ----- The agent ------------------------------------------------------------------------------------

  function Pending(large: Table, session: nat, start: Partial): Partial {
    if session in large then large[session] else start
  }

  function Appended(p: Partial, slots: seq<Slot>): Partial {
    p.(slots := p.slots + slots)
  }

  /** A packet without the padding flag: either it completes an unfinished request or it stands for
      itself. */
  function Finish(large: Table, session: nat, alone: Event, msg: Str): (Table, Event) {
    if session in large then
      var req := Appended(large[session], [Piece(msg)]);
      (large - {session},
       match Reassembled(req.slots)
       case None => Reject(session)
       case Some(bytes) => Deliver(req.addr, session, req.push, bytes))
    else (large, alone)
  }

  /** One call of dispatch_request.  `sized` says whether the announced size is appended to the table
      of the request: the protocol needs it, the agent as written drops it because it only appends
      when there is a message. */
  function Receive(large: Table, u: Unpacked, sized: bool): (Table, Option<Event>) {
    match u
    case Malformed => (large, None)
    case Begin(addr, session, size, push) =>
      var req := Pending(large, session, Partial(Some(addr), push, []));
      (large[session := Appended(req, if sized then [Size(size)] else [])], None)
    case Part(session, msg, true) =>
      var req := Pending(large, session, Partial(None, false, []));
      (large[session := Appended(req, [Piece(msg)])], None)
    case Part(session, msg, false) =>
      var (table, e) := Finish(large, session, Deliver(None, session, false, msg), msg);
      (table, Some(e))
    case Whole(addr, session, msg, push) =>
      var (table, e) := Finish(large, session, Deliver(Some(addr), session, push, msg), msg);
      (table, Some(e))
  }

  /** The table after the first `k` packets, starting empty. */
  function TableAfter(bodies: seq<Str>, k: nat, sized: bool): Table
    requires k <= |bodies|
  {
    if k == 0 then map[]
    else Receive(TableAfter(bodies, k - 1, sized), UnpackRequest(bodies[k - 1]), sized).0
  }

  /** What the agent does on packet `k`. */
  function EventAt(bodies: seq<Str>, k: nat, sized: bool): Option<Event>
    requires k < |bodies|
  {
    Receive(TableAfter(bodies, k, sized), UnpackRequest(bodies[k]), sized).1
  }

  /** The payloads before the first empty one. */
  function UptoEmpty(msgs: seq<Str>): seq<Str> {
    if msgs == [] || msgs[0] == [] then [] else [msgs[0]] + UptoEmpty(msgs[1..])
  }

  lemma {:induction false} StopsAtEmpty(msgs: seq<Str>)
    ensures var r := UptoEmpty(msgs);
            r <= msgs && [] !in r && (|r| < |msgs| ==> msgs[|r|] == [])
  {
    if msgs != [] && msgs[0] != [] {
      StopsAtEmpty(msgs[1..]);
      assert msgs == [msgs[0]] + msgs[1..];
    }
  }

  /** read_loop: two bytes of header, then as many as it says, until the connection has no more or the
      header says 0. */
  method ReadLoop(stream: Str) returns (bodies: seq<Str>)
    ensures bodies == UptoEmpty(Frames(stream).msgs)
  {
    bodies := [];
    var pos := 0;
    while pos + 2 <= |stream|
      invariant pos <= |stream|
      invariant UptoEmpty(Msgs(stream, 0)) == bodies + UptoEmpty(Msgs(stream, pos))
    {
      var sz := Be16(stream[pos], stream[pos + 1]);
      if sz == 0 {
        assert UptoEmpty(Msgs(stream, pos)) == [];
        return;
      }
      if pos + 2 + sz > |stream| {
        break;
      }
      assert Msgs(stream, pos)[1..] == Msgs(stream, pos + 2 + sz);
      bodies := bodies + [stream[pos + 2..pos + 2 + sz]];
      pos := pos + 2 + sz;
    }
    assert UptoEmpty(Msgs(stream, pos)) == [];
  }

  /** The packets before the first one that unpackrequest rejects; its error ends the loop. */
  function Upto(bodies: seq<Str>): (r: seq<Str>)
    ensures r <= bodies
  {
    if bodies == [] || UnpackRequest(bodies[0]).Malformed? then []
    else [bodies[0]] + Upto(bodies[1..])
  }

  lemma {:induction false} StopsAtMalformed(bodies: seq<Str>)
    ensures var r := Upto(bodies);
            && (forall k :: 0 <= k < |r| ==> !UnpackRequest(r[k]).Malformed?)
            && (|r| < |bodies| ==> UnpackRequest(bodies[|r|]).Malformed?)
  {
    if bodies != [] && !UnpackRequest(bodies[0]).Malformed? {
      StopsAtMalformed(bodies[1..]);
    }
  }

  /** What the loop gets to. */
  function Reached(stream: Str): seq<Str> {
    Upto(UptoEmpty(Frames(stream).msgs))
  }

  lemma {:induction false} UptoAll(bodies: seq<Str>)
    requires forall k :: 0 <= k < |bodies| ==> !UnpackRequest(bodies[k]).Malformed?
    ensures Upto(bodies) == bodies
  {
    if bodies != [] {
      UptoAll(bodies[1..]);
      assert bodies == [bodies[0]] + bodies[1..];
    }
  }

  lemma {:induction false} NoneEmpty(bodies: seq<Str>)
    requires forall k :: 0 <= k < |bodies| ==> bodies[k] != []
    ensures UptoEmpty(bodies) == bodies
  {
    if bodies != [] {
      NoneEmpty(bodies[1..]);
      assert bodies == [bodies[0]] + bodies[1..];
    }
  }

  /** No packet of a request is malformed. */
  lemma BodyReadable(r: Request, p: nat)
    requires GoodRequest(r) && p < PacketCount(r)
    ensures !UnpackRequest(Body(r, p)).Malformed?
  {
    if |r.msg| < MULTI_PART {
      UnpackSmallBody(r.addr, if r.push then 0 else r.session, r.msg);
    } else if p == 0 {
      UnpackBeginBody(r.addr, r.session, r.push, |r.msg|);
    } else {
      UnpackPartBody(r.session, r.msg, p - 1);
    }
  }

  class Agent {
    var large: Table
    const sized: bool

    constructor (sized: bool)
      ensures large == map[] && this.sized == sized
    {
      large := map[];
      this.sized := sized;
    }

    method Dispatch(u: Unpacked) returns (e: Option<Event>)
      modifies this
      ensures (large, e) == Receive(old(large), u, sized)
    {
      match u
      case Malformed =>
        return None;
      case Begin(addr, session, size, push) =>
        var req := Pending(large, session, Partial(Some(addr), push, []));
        large := large[session := req];
        assert Appended(req, []) == req;
        if sized {
          large := large[session := Appended(req, [Size(size)])];
        }
        assert large == old(large)[session := Appended(req, if sized then [Size(size)] else [])];
        return None;
      case Part(session, msg, true) =>
        var req := Pending(large, session, Partial(None, false, []));
        large := large[session := Appended(req, [Piece(msg)])];
        return None;
      case Part(session, msg, false) =>
        var r := Complete(session, Deliver(None, session, false, msg), msg);
        return Some(r);
      case Whole(addr, session, msg, push) =>
        var r := Complete(session, Deliver(Some(addr), session, push, msg), msg);
        return Some(r);
    }

    method Complete(session: nat, alone: Event, msg: Str) returns (e: Event)
      modifies this
      ensures (large, e) == Finish(old(large), session, alone, msg)
    {
      if session !in large {
        return alone;
      }
      var req := Appended(large[session], [Piece(msg)]);
      large := large - {session};
      var bytes := Concat(req.slots);
      match bytes
      case None => return Reject(session);
      case Some(b) => return Deliver(req.addr, session, req.push, b);
    }

    /** The whole receiving side: chunks of the TCP stream in, one event or nothing out for every packet
        that read_loop gets to. */
    method Serve(chunks: seq<Str>) returns (events: seq<Option<Event>>)
      requires large == map[]
      modifies this
      ensures
        var bodies := Reached(Flatten(chunks));
        && |events| == |bodies|
        && (forall k :: 0 <= k < |bodies| ==> events[k] == EventAt(bodies, k, sized))
    {
      var bodies := ReadLoop(Flatten(chunks));
      events := DispatchAll(Upto(bodies));
    }

    method DispatchAll(bodies: seq<Str>) returns (events: seq<Option<Event>>)
      requires large == map[]
      modifies this
      ensures |events| == |bodies|
      ensures forall k :: 0 <= k < |bodies| ==> events[k] == EventAt(bodies, k, sized)
    {
      events := [];
      for k := 0 to |bodies|
        invariant |events| == k && large == TableAfter(bodies, k, sized)
        invariant forall j :: 0 <= j < k ==> events[j] == EventAt(bodies, j, sized)
      {
        var e := Dispatch(UnpackRequest(bodies[k]));
        events := events + [e];
      }
    }
  }

  // ----- Interleaved requests -----------------------------------------------------------------------

  /** How many of the first `k` packets belong to request `i`. */
  function Progress(owner: seq<nat>, k: nat, i: nat): (n: nat)
    requires k <= |owner|
    ensures n <= k
  {
    if k == 0 then 0 else Progress(owner, k - 1, i) + if owner[k - 1] == i then 1 else 0
  }

  /** The packets are those of the requests, each request's own packets in order, merged in any way;
      packet k belongs to request owner[k].  The sessions are pairwise distinct. */
  ghost predicate Interleaved(bodies: seq<Str>, reqs: seq<Request>, owner: seq<nat>) {
    && |owner| == |bodies|
    && (forall i :: 0 <= i < |reqs| ==> GoodRequest(reqs[i]) && |reqs[i].msg| < INT32_SPAN)
    && (forall i, j :: 0 <= i < |reqs| && 0 <= j < |reqs| && i != j ==>
          reqs[i].session != reqs[j].session)
    && (forall k :: 0 <= k < |bodies| ==> NextPacket(bodies, reqs, owner, k))
  }

  /** Packet `k` is the next one of its request. */
  ghost predicate NextPacket(bodies: seq<Str>, reqs: seq<Request>, owner: seq<nat>, k: nat)
    requires k < |bodies| == |owner|
  {
    && owner[k] < |reqs| && GoodRequest(reqs[owner[k]])
    && Progress(owner, k, owner[k]) < PacketCount(reqs[owner[k]])
    && bodies[k] == Body(reqs[owner[k]], Progress(owner, k, owner[k]))
  }

  /** Single-packet pushes travel without their session. */
  function WireSession(r: Request): nat {
    if r.push && |r.msg| < MULTI_PART then 0 else r.session
  }

  function Delivered(r: Request): Event {
    Deliver(Some(WireAddress(r.addr)), WireSession(r), r.push, r.msg)
  }

  /** What the agent should do on packet `p` of a request: nothing before the last packet. */
  function Due(r: Request, p: nat, sized: bool): Option<Event> {
    if p + 1 < PacketCount(r) then None
    else if |r.msg| < MULTI_PART || sized then Some(Delivered(r))
    else Some(Reject(r.session))
  }

  /** Table entry of a multi-part request after `p` of its packets. */
  function EntryAfter(r: Request, p: nat, sized: bool): Partial
    requires |r.msg| >= MULTI_PART && 1 <= p <= PacketCount(r)
  {
    Partial(Some(WireAddress(r.addr)), r.push,
            (if sized then [Size(|r.msg|)] else []) + Pieces(r.msg, p - 1))
  }

  /** Each unfinished request is in the table with what has arrived, and no other session is. */
  ghost predicate InStep(large: Table, reqs: seq<Request>, owner: seq<nat>, k: nat, sized: bool)
    requires k <= |owner|
  {
    && 0 !in large
    && forall i :: 0 <= i < |reqs| ==> Tracks(large, reqs[i], Progress(owner, k, i), sized)
  }

  ghost predicate Tracks(large: Table, r: Request, p: nat, sized: bool) {
    if 0 < p < PacketCount(r)
    then r.session in large && large[r.session] == EntryAfter(r, p, sized)
    else r.session !in large
  }

  /** The entry of `r` goes from `p` to `p + 1` packets and nobody else's changes. */
  ghost predicate Advances(large: Table, table: Table, r: Request, p: nat, sized: bool) {
    Tracks(table, r, p + 1, sized) && table - {r.session} == large - {r.session}
  }

  /** One packet of one request: its own entry moves on, and the event is the one due. */
  lemma OwnPacket(large: Table, r: Request, p: nat, sized: bool)
    requires GoodRequest(r) && |r.msg| < INT32_SPAN && p < PacketCount(r)
    requires Tracks(large, r, p, sized) && 0 !in large
    ensures
      var (table, e) := Receive(large, UnpackRequest(Body(r, p)), sized);
      e == Due(r, p, sized) && Advances(large, table, r, p, sized)
  {
    if |r.msg| < MULTI_PART {
      UnpackSmallBody(r.addr, WireSession(r), r.msg);
    } else if p == 0 {
      UnpackBeginBody(r.addr, r.session, r.push, |r.msg|);
    } else {
      OwnPart(large, r, p, sized);
    }
  }

  lemma OwnPart(large: Table, r: Request, p: nat, sized: bool)
    requires GoodRequest(r) && MULTI_PART <= |r.msg| < INT32_SPAN && 0 < p < PacketCount(r)
    requires Tracks(large, r, p, sized)
    ensures
      var (table, e) := Receive(large, UnpackRequest(Body(r, p)), sized);
      e == Due(r, p, sized) && Advances(large, table, r, p, sized)
  {
    UnpackPartBody(r.session, r.msg, p - 1);
    if p + 1 == PacketCount(r) {
      OwnLast(large, r, sized);
    } else {
      OwnNext(large, r, p, sized);
    }
  }

  /** A part with more to follow. */
  lemma OwnNext(large: Table, r: Request, p: nat, sized: bool)
    requires MULTI_PART <= |r.msg| && 0 < p && p + 1 < PacketCount(r) && Tracks(large, r, p, sized)
    ensures
      var (table, e) := Receive(large, Part(r.session, Chunk(r.msg, p - 1), true), sized);
      e == None && Advances(large, table, r, p, sized)
  {
    var head := if sized then [Size(|r.msg|)] else [];
    var done, piece := Pieces(r.msg, p - 1), Piece(Chunk(r.msg, p - 1));
    assert head + done + [piece] == head + (done + [piece]);
  }

  /** The part that completes the request. */
  lemma OwnLast(large: Table, r: Request, sized: bool)
    requires MULTI_PART <= |r.msg| < INT32_SPAN && Tracks(large, r, PacketCount(r) - 1, sized)
    ensures
      var p := PacketCount(r) - 1;
      var (table, e) := Receive(large, Part(r.session, Chunk(r.msg, p - 1), false), sized);
      e == Due(r, p, sized) && Advances(large, table, r, p, sized)
  {
    LastPart(r, sized);
  }

  lemma LastPart(r: Request, sized: bool)
    requires MULTI_PART <= |r.msg| < INT32_SPAN
    ensures EntryAfter(r, PacketCount(r), sized).slots
            == EntryAfter(r, PacketCount(r) - 1, sized).slots
               + [Piece(Chunk(r.msg, PartCount(|r.msg|) - 1))]
    ensures Reassembled(EntryAfter(r, PacketCount(r), sized).slots)
            == if sized then Some(r.msg) else None
  {
    var slots := Pieces(r.msg, PartCount(|r.msg|));
    AllPiecesReassemble(r.msg);
    if !sized {
      assert [] + slots == slots;
    }
  }

  lemma OtherPackets(large: Table, table: Table, s: nat, r: Request, p: nat, sized: bool)
    requires Tracks(large, r, p, sized) && r.session != s
    requires table - {s} == large - {s}
    ensures Tracks(table, r, p, sized)
  {
    assert r.session in table <==> r.session in table - {s};
    assert r.session in large <==> r.session in large - {s};
    if r.session in large {
      assert (large - {s})[r.session] == (table - {s})[r.session];
    }
  }

  lemma PacketStep(bodies: seq<Str>, reqs: seq<Request>, owner: seq<nat>, k: nat, sized: bool)
    requires Interleaved(bodies, reqs, owner) && 1 <= k <= |bodies|
    requires NextPacket(bodies, reqs, owner, k - 1)
    requires InStep(TableAfter(bodies, k - 1, sized), reqs, owner, k - 1, sized)
    ensures InStep(TableAfter(bodies, k, sized), reqs, owner, k, sized)
    ensures EventAt(bodies, k - 1, sized)
            == Due(reqs[owner[k - 1]], Progress(owner, k - 1, owner[k - 1]), sized)
  {
    var large, table := TableAfter(bodies, k - 1, sized), TableAfter(bodies, k, sized);
    var o := owner[k - 1];
    OwnPacket(large, reqs[o], Progress(owner, k - 1, o), sized);
    assert 0 in table <==> 0 in table - {reqs[o].session};
    assert 0 !in large - {reqs[o].session};
    forall i | 0 <= i < |reqs|
      ensures Tracks(table, reqs[i], Progress(owner, k, i), sized)
    {
      if i != o {
        OtherPackets(large, table, reqs[o].session, reqs[i], Progress(owner, k - 1, i), sized);
      }
    }
  }

  lemma {:induction false} InStepAlways(bodies: seq<Str>, reqs: seq<Request>, owner: seq<nat>,
                                        k: nat, sized: bool)
    requires Interleaved(bodies, reqs, owner) && k <= |bodies|
    ensures InStep(TableAfter(bodies, k, sized), reqs, owner, k, sized)
  {
    if k == 0 {
      InStepAtFirst(bodies, reqs, owner, sized);
    } else {
      InStepAlways(bodies, reqs, owner, k - 1, sized);
      assert NextPacket(bodies, reqs, owner, k - 1);
      PacketStep(bodies, reqs, owner, k, sized);
    }
  }

  lemma InStepAtFirst(bodies: seq<Str>, reqs: seq<Request>, owner: seq<nat>, sized: bool)
    ensures InStep(TableAfter(bodies, 0, sized), reqs, owner, 0, sized)
  {
  }

  /** End to end, for any requests with distinct sessions, any interleaving of their packets and any
      cutting of the stream: the receiver sees exactly the packets, and on the last packet of each
      request, and only there, it acts.  With the size kept it delivers the address, session, push
      flag and message that were sent; without it, the same for single-packet requests, while every
      multi-part request is refused.  That packet k is the next of its request and that packets fit a
      frame follows from Interleaved and is repeated to make the statement well formed. */
  lemma EndToEnd(chunks: seq<Str>, bodies: seq<Str>, reqs: seq<Request>, owner: seq<nat>,
                 k: nat, sized: bool)
    requires Interleaved(bodies, reqs, owner) && k < |bodies| && NextPacket(bodies, reqs, owner, k)
    requires forall b :: b in bodies ==> |b| <= MAX_PAYLOAD
    requires Flatten(chunks) == FramedAll(bodies)
    ensures Frames(Flatten(chunks)) == Split(bodies, []) && Reached(Flatten(chunks)) == bodies
    ensures EventAt(bodies, k, sized)
            == Due(reqs[owner[k]], Progress(owner, k, owner[k]), sized)
  {
    FramesOfFramed(bodies, []);
    forall i | 0 <= i < |bodies|
      ensures !UnpackRequest(bodies[i]).Malformed? && bodies[i] != []
    {
      assert NextPacket(bodies, reqs, owner, i);
      BodyReadable(reqs[owner[i]], Progress(owner, i, owner[i]));
    }
    UptoAll(bodies);
    NoneEmpty(bodies);
    assert FramedAll(bodies) + [] == FramedAll(bodies);
    EventIsDue(bodies, reqs, owner, k, sized);
  }

  lemma EventIsDue(bodies: seq<Str>, reqs: seq<Request>, owner: seq<nat>, k: nat, sized: bool)
    requires Interleaved(bodies, reqs, owner) && k < |bodies| && NextPacket(bodies, reqs, owner, k)
    ensures EventAt(bodies, k, sized)
            == Due(reqs[owner[k]], Progress(owner, k, owner[k]), sized)
  {
    InStepAlways(bodies, reqs, owner, k, sized);
    PacketStep(bodies, reqs, owner, k + 1, sized);
  }

  /** Packet `k` belongs to request `i` and makes the agent deliver it. */
  ghost predicate DeliversAt(bodies: seq<Str>, owner: seq<nat>, r: Request, i: nat, k: nat,
                             sized: bool)
  {
    k < |bodies| && k < |owner| && owner[k] == i
    && EventAt(bodies, k, sized) == Some(Delivered(r))
  }

  /** The agent as written delivers a request if and only if its message is under 0x8000 bytes. */
  lemma DeliveredAsWrittenIff(bodies: seq<Str>, reqs: seq<Request>, owner: seq<nat>, i: nat)
    requires Interleaved(bodies, reqs, owner) && i < |reqs|
    requires Progress(owner, |owner|, i) == PacketCount(reqs[i])
    ensures (exists k: nat :: DeliversAt(bodies, owner, reqs[i], i, k, false))
            <==> |reqs[i].msg| < MULTI_PART
  {
    if |reqs[i].msg| < MULTI_PART {
      var last := LastOf(owner, |owner|, i);
      assert NextPacket(bodies, reqs, owner, last);
      EventIsDue(bodies, reqs, owner, last, false);
      assert DeliversAt(bodies, owner, reqs[i], i, last, false);
    } else {
      forall k: nat | k < |bodies| && owner[k] == i
        ensures !DeliversAt(bodies, owner, reqs[i], i, k, false)
      {
        assert NextPacket(bodies, reqs, owner, k);
        EventIsDue(bodies, reqs, owner, k, false);
      }
    }
  }

  /** Such an input: a message of exactly 0x8000 bytes makes an announcement and one part, both arrive in
      order and with nothing else, and the agent as written refuses it; with the size kept it is
      delivered. */
  lemma RefusedExample()
    ensures
      var r := Request(Number(1), 1, false, seq(MULTI_PART, _ => 0));
      && GoodRequest(r) && PacketCount(r) == 2
      && EventAt([Body(r, 0), Body(r, 1)], 0, false) == None
      && EventAt([Body(r, 0), Body(r, 1)], 1, false) == Some(Reject(1))
      && EventAt([Body(r, 0), Body(r, 1)], 1, true) == Some(Delivered(r))
  {
    var r := Request(Number(1), 1, false, seq(MULTI_PART, _ => 0));
    var bodies, reqs, owner := [Body(r, 0), Body(r, 1)], [r], [0, 0];
    assert Progress(owner, 0, 0) == 0 && Progress(owner, 1, 0) == 1;
    assert NextPacket(bodies, reqs, owner, 0) && NextPacket(bodies, reqs, owner, 1);
    EventIsDue(bodies, reqs, owner, 0, false);
    EventIsDue(bodies, reqs, owner, 1, false);
    EventIsDue(bodies, reqs, owner, 1, true);
  }

  /** With the size kept, every request whose packets all arrived is delivered, exactly once. */
  lemma DeliveredOnceWhenSized(bodies: seq<Str>, reqs: seq<Request>, owner: seq<nat>, i: nat)
    requires Interleaved(bodies, reqs, owner) && i < |reqs|
    requires Progress(owner, |owner|, i) == PacketCount(reqs[i])
    ensures exists k: nat :: DeliversAt(bodies, owner, reqs[i], i, k, true)
    ensures forall k: nat, l: nat ::
              (DeliversAt(bodies, owner, reqs[i], i, k, true)
               && DeliversAt(bodies, owner, reqs[i], i, l, true)) ==> k == l
  {
    var last := LastOf(owner, |owner|, i);
    assert NextPacket(bodies, reqs, owner, last);
    EventIsDue(bodies, reqs, owner, last, true);
    assert DeliversAt(bodies, owner, reqs[i], i, last, true);
    forall k: nat | DeliversAt(bodies, owner, reqs[i], i, k, true)
      ensures k == last
    {
      assert NextPacket(bodies, reqs, owner, k);
      EventIsDue(bodies, reqs, owner, k, true);
      ProgressStrict(owner, k, last, i);
    }
  }

  /** Two packets of a request cannot both be its last. */
  lemma {:induction false} ProgressStrict(owner: seq<nat>, k: nat, l: nat, i: nat)
    requires k < |owner| && l < |owner| && owner[k] == i && owner[l] == i
    ensures k < l ==> Progress(owner, k, i) < Progress(owner, l, i)
    ensures l < k ==> Progress(owner, l, i) < Progress(owner, k, i)
  {
    if k < l {
      ProgressGrows(owner, k + 1, l, i);
    } else if l < k {
      ProgressGrows(owner, l + 1, k, i);
    }
  }

  lemma {:induction false} ProgressGrows(owner: seq<nat>, k: nat, l: nat, i: nat)
    requires k <= l <= |owner|
    ensures Progress(owner, k, i) <= Progress(owner, l, i)
  {
    if k < l {
      ProgressGrows(owner, k, l - 1, i);
    }
  }

  /** The last packet of request `i` among the first `k`. */
  function LastOf(owner: seq<nat>, k: nat, i: nat): (j: nat)
    requires k <= |owner| && Progress(owner, k, i) > 0
    ensures j < k && owner[j] == i && Progress(owner, j, i) + 1 == Progress(owner, k, i)
  {
    if owner[k - 1] == i then k - 1 else LastOf(owner, k - 1, i)
  }
}
