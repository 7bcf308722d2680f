/** The bytes of cluster packets (src/lua_cluster.cpp), written out: what the packers produce and what the
    unpackers make of any bytes, and what the agent does with packets out of place. */
module ClusterFormat {
  import opened Wrappers
  import opened Numbers
  import opened Bytes
  import opened Cluster
  import opened ClusterDelivery
  import Responses = ClusterResponse

  lemma WordAt(a: Str, n: nat, b: Str)
    requires n < UINT32_SPAN
    ensures Word4(a + Le(n, 4) + b, |a|) == n
  {
    var s := a + Le(n, 4) + b;
    Le32RoundTrip(n);
    FromLe4(Le(n, 4));
    assert forall k :: 0 <= k < 4 ==> s[|a| + k] == Le(n, 4)[k];
  }

  lemma FromLeAt(s: Str, at: nat)
    requires at + 4 <= |s|
    ensures FromLe(s[at..at + 4]) == Word4(s, at)
  {
    FromLe4(s[at..at + 4]);
  }

  // ----- Requests -------------------------------------------------------------------------------------

  /** Under 0x8000 bytes one packet, from there on an announcement and a part for every 0x8000 bytes begun. */
  lemma RequestCount(r: Request)
    ensures |r.msg| < 0x8000 ==> PacketCount(r) == 1
    ensures |r.msg| >= 0x8000 ==> 0x8000 * (PacketCount(r) - 2) < |r.msg| <= 0x8000 * (PacketCount(r) - 1)
  {
  }

  /** A whole request to a number: tag 0, the number, the session, which is 0 in a push, and the message. */
  lemma NumberLayout(r: Request)
    requires GoodRequest(r) && r.addr.Number? && |r.msg| < 0x8000
    ensures var s := Cluster.Body(r, 0);
            && |s| == 9 + |r.msg| && s[0] == 0 && Word4(s, 1) == r.addr.n % 0x1_0000_0000
            && Word4(s, 5) == (if r.push then 0 else r.session) && s[9..] == r.msg
  {
    var session, n := if r.push then 0 else r.session, Uint32(r.addr.n);
    var s := Cluster.Body(r, 0);
    assert s == [0] + Le(n, 4) + Le(session, 4) + r.msg;
    WordAt([0], n, Le(session, 4) + r.msg);
    assert s == [0] + Le(n, 4) + (Le(session, 4) + r.msg);
    WordAt([0] + Le(n, 4), session, r.msg);
  }

  /** One to a name: tag 0x80, the length of the name, the name, the session and the message. */
  lemma NameLayout(r: Request)
    requires GoodRequest(r) && r.addr.Name? && |r.msg| < 0x8000
    ensures var s, n := Cluster.Body(r, 0), |r.addr.s|;
            && |s| == 6 + n + |r.msg| && s[0] == 0x80 && s[1] == n && s[2..2 + n] == r.addr.s
            && Word4(s, 2 + n) == (if r.push then 0 else r.session) && s[6 + n..] == r.msg
  {
    var session, n := if r.push then 0 else r.session, |r.addr.s|;
    var s := Cluster.Body(r, 0);
    assert s == [0x80] + ([n] + r.addr.s) + Le(session, 4) + r.msg;
    WordAt([0x80] + ([n] + r.addr.s), session, r.msg);
  }

  /** The announcement of a large request has its session also in a push, and the size; the tag tells a
      push. */
  lemma NumberBeginLayout(r: Request)
    requires GoodRequest(r) && r.addr.Number? && |r.msg| >= 0x8000
    ensures var s := Cluster.Body(r, 0);
            && |s| == 13 && s[0] == (if r.push then 0x41 else 1) && Word4(s, 1) == r.addr.n % 0x1_0000_0000
            && Word4(s, 5) == r.session && Word4(s, 9) == |r.msg|
  {
    var s, n, tag: byte := Cluster.Body(r, 0), Uint32(r.addr.n), if r.push then 0x41 else 1;
    var size := |r.msg|;
    assert s == [tag] + Le(n, 4) + Le(r.session, 4) + Le(size, 4);
    WordAt([tag], n, Le(r.session, 4) + Le(size, 4));
    assert s == [tag] + Le(n, 4) + (Le(r.session, 4) + Le(size, 4));
    WordAt([tag] + Le(n, 4), r.session, Le(size, 4));
    WordAt([tag] + Le(n, 4) + Le(r.session, 4), size, []);
    assert s == [tag] + Le(n, 4) + Le(r.session, 4) + Le(size, 4) + [];
  }

  lemma NameBeginLayout(r: Request)
    requires GoodRequest(r) && r.addr.Name? && |r.msg| >= 0x8000
    ensures var s, n := Cluster.Body(r, 0), |r.addr.s|;
            && |s| == 10 + n && s[0] == (if r.push then 0xc1 else 0x81) && s[1] == n
            && s[2..2 + n] == r.addr.s && Word4(s, 2 + n) == r.session && Word4(s, 6 + n) == |r.msg|
  {
    var s, n, tag: byte := Cluster.Body(r, 0), |r.addr.s|, if r.push then 0xc1 else 0x81;
    var head, size := [tag] + ([n] + r.addr.s), |r.msg|;
    assert s == head + Le(r.session, 4) + Le(size, 4);
    WordAt(head, r.session, Le(size, 4));
    WordAt(head + Le(r.session, 4), size, []);
    assert s == head + Le(r.session, 4) + Le(size, 4) + [];
  }

  /** A part: tag 3 in the last one and 2 in the others, the session and up to 0x8000 bytes of the message. */
  lemma PartLayout(r: Request, i: nat)
    requires GoodRequest(r) && |r.msg| >= 0x8000 && 1 <= i < PacketCount(r)
    ensures var s := Cluster.Body(r, i);
            var end := if i == PacketCount(r) - 1 then |r.msg| else 0x8000 * i;
            && |s| >= 5 && s[0] == (if i == PacketCount(r) - 1 then 3 else 2) && Word4(s, 1) == r.session
            && 0x8000 * (i - 1) < end <= |r.msg| && s[5..] == r.msg[0x8000 * (i - 1)..end]
  {
    var tag: byte := if i == PacketCount(r) - 1 then 3 else 2;
    WordAt([tag], r.session, Chunk(r.msg, i - 1));
  }

  // ----- What the unpacker accepts --------------------------------------------------------------------

  /** Every byte string is one of these: too short or with another tag it is malformed. */
  ghost predicate ReadsRequest(s: Str, u: Unpacked) {
    if |s| >= 9 && s[0] == 0 then
      u == Whole(Number(Word4(s, 1)), Word4(s, 5), s[9..], Word4(s, 5) == 0)
    else if |s| == 13 && s[0] in {1, 0x41} then
      u == Begin(Number(Word4(s, 1)), Word4(s, 5), Word4(s, 9), s[0] == 0x41)
    else if |s| >= 5 && s[0] in {2, 3} then u == Part(Word4(s, 1), s[5..], s[0] == 2)
    else if |s| >= 2 && |s| >= (s[1] as int) + 6 && s[0] == 0x80 then
      var n: int := s[1];
      u == Whole(Name(s[2..2 + n]), Word4(s, 2 + n), s[6 + n..], Word4(s, 2 + n) == 0)
    else if |s| >= 2 && |s| >= (s[1] as int) + 10 && s[0] in {0x81, 0xc1} then
      var n: int := s[1];
      u == Begin(Name(s[2..2 + n]), Word4(s, 2 + n), Word4(s, 6 + n), s[0] == 0xc1)
    else u == Malformed
  }

  lemma RequestReads(s: Str)
    ensures ReadsRequest(s, UnpackRequest(s))
  {
    if |s| >= 5 && s[0] in {0, 1, 2, 3, 0x41} {
      FromLeAt(s, 1);
      if |s| >= 9 { FromLeAt(s, 5); }
      if |s| >= 13 { FromLeAt(s, 9); }
    } else if |s| >= 2 && s[0] in {0x80, 0x81, 0xc1} {
      var n: int := s[1];
      if |s| >= n + 6 { FromLeAt(s, n + 2); }
      if |s| >= n + 10 { FromLeAt(s, n + 6); }
    }
  }

  // ----- Responses ------------------------------------------------------------------------------------

  /** A failure or a success of up to 0x8000 bytes: the session, 0 or 1, and the data, of a failure at most
      0x8000 bytes. */
  lemma ResponseLayout(r: Responses.Reply)
    requires r.session < UINT32_SPAN && (!r.ok || |r.msg| <= 0x8000)
    ensures Responses.ReplyCount(r) == 1
    ensures var s := Responses.Body(r, 0);
            && |s| >= 5 && Word4(s, 0) == r.session && s[4] == (if r.ok then 1 else 0)
            && s[5..] == if |r.msg| <= 0x8000 then r.msg else r.msg[..0x8000]
  {
    var s := Responses.Body(r, 0);
    var tag: byte := if r.ok then 1 else 0;
    WordAt([], r.session, [tag] + Responses.Kept(r));
    assert s == [] + Le(r.session, 4) + ([tag] + Responses.Kept(r));
    assert r.msg[..|r.msg|] == r.msg;
  }

  /** A larger success: 2 and the size, then 3, and 4 in the last one, with up to 0x8000 bytes each. */
  lemma ResponsePartLayout(r: Responses.Reply, i: nat)
    requires r.session < UINT32_SPAN && r.ok && 0x8000 < |r.msg| < UINT32_SPAN && i < Responses.ReplyCount(r)
    ensures var s, n := Responses.Body(r, i), Responses.ReplyCount(r);
            var end := if i == n - 1 then |r.msg| else 0x8000 * i;
            && 0x8000 * (n - 2) < |r.msg| <= 0x8000 * (n - 1)
            && |s| >= 5 && Word4(s, 0) == r.session
            && s[4] == (if i == 0 then 2 else if i == n - 1 then 4 else 3)
            && (i == 0 ==> |s| == 9 && Word4(s, 5) == |r.msg|)
            && (i > 0 ==> 0x8000 * (i - 1) < end <= |r.msg| && s[5..] == r.msg[0x8000 * (i - 1)..end])
  {
    Responses.PartsFit(|r.msg|);
    var s, n := Responses.Body(r, i), Responses.ReplyCount(r);
    var tag: byte := if i == 0 then 2 else if i == n - 1 then 4 else 3;
    var rest := if i == 0 then Le(|r.msg|, 4) else Chunk(r.msg, i - 1);
    assert s == [] + Le(r.session, 4) + ([tag] + rest);
    WordAt([], r.session, [tag] + rest);
    if i == 0 {
      assert s == (Le(r.session, 4) + [tag]) + Le(|r.msg|, 4) + [];
      WordAt(Le(r.session, 4) + [tag], |r.msg|, []);
    }
  }

  /** Which bytes are a response, and which. */
  lemma ResponseReads(s: Str)
    ensures Responses.UnpackResponse(s)
            == if |s| < 5 || s[4] > 4 || (s[4] == 2 && |s| != 9) then None
               else Some(Responses.Response(Word4(s, 0), s[4] != 0,
                                            if s[4] == 2 then Size(Word4(s, 5)) else Piece(s[5..]),
                                            s[4] in {2, 3}))
  {
    if |s| >= 5 {
      FromLeAt(s, 0);
      assert s[0..4] == s[..4];
    }
    if |s| == 9 {
      FromLeAt(s, 5);
    }
  }

  // ----- Packets out of place -------------------------------------------------------------------------

  /** When nothing of a session is there: a part without announcement begins a request without address, and a
      final packet stands alone, the last part without address. */
  lemma StrayPackets(large: Table, session: nat, addr: Address, size: nat, push: bool, msg: Str)
    requires session !in large
    ensures Receive(large, Malformed, false) == (large, None) && Receive(large, Malformed, true) == (large, None)
    ensures Receive(large, Begin(addr, session, size, push), false)
            == (large[session := Partial(Some(addr), push, [])], None)
    ensures Receive(large, Part(session, msg, true), false)
            == (large[session := Partial(None, false, [Piece(msg)])], None)
    ensures Receive(large, Part(session, msg, false), false) == (large, Some(Deliver(None, session, false, msg)))
    ensures Receive(large, Whole(addr, session, msg, push), false)
            == (large, Some(Deliver(Some(addr), session, push, msg)))
  {
    assert Appended(Partial(Some(addr), push, []), []) == Partial(Some(addr), push, []);
    assert Appended(Partial(None, false, []), [Piece(msg)]) == Partial(None, false, [Piece(msg)]);
  }

  /** When a request is under way in its session: a second announcement changes nothing, a part is added, and
      a final packet, also a whole request, ends it; what is then delivered has the first address and push
      flag, not those of the packet. */
  lemma PacketsUnderWay(large: Table, session: nat, addr: Address, size: nat, push: bool, msg: Str, sized: bool)
    requires session in large
    ensures Receive(large, Begin(addr, session, size, push), false) == (large, None)
    ensures var p := large[session];
            Receive(large, Part(session, msg, true), sized)
            == (large[session := Partial(p.addr, p.push, p.slots + [Piece(msg)])], None)
    ensures var p := large[session];
            var r := Receive(large, Part(session, msg, false), sized);
            && r == Receive(large, Whole(addr, session, msg, push), sized) && r.0 == large - {session}
            && r.1.Some?
            && (r.1.value.Deliver? ==> r.1.value.addr == p.addr && r.1.value.push == p.push)
            && r.1.value.session == session
  {
    var p := large[session];
    assert p.slots + [] == p.slots && Appended(p, []) == p;
    assert large[session := p] == large;
  }

  /** A response for a session nobody waits for changes nothing. */
  lemma UnknownSession(t: Responses.Tables, r: Responses.Response)
    requires r.session !in t.thread
    ensures Responses.Arrived(t, r) == t
  {
  }

  /** One with the padding flag is added to what the coroutine has; it goes on waiting. */
  lemma PaddingArrives(t: Responses.Tables, r: Responses.Response)
    requires r.session in t.thread && r.padding
    ensures var co := t.thread[r.session];
            var slots := if co in t.held && t.held[co].Many? then t.held[co].slots else [];
            var u := Responses.Arrived(t, r);
            u.thread == t.thread && u.result == t.result
            && u.held == t.held[co := Responses.Many(slots + [r.data])]
  {
    var co := t.thread[r.session];
    assert [] + [r.data] == [r.data];
    assert co in t.result ==> t.result[co := t.result[co]] == t.result;
    assert co !in t.result ==> t.result - {co} == t.result;
  }

  /** One without ends the wait; its flag is the result, also when parts came before. */
  lemma LastArrives(t: Responses.Tables, r: Responses.Response)
    requires r.session in t.thread && !r.padding
    ensures var co := t.thread[r.session];
            var u := Responses.Arrived(t, r);
            && u.thread == t.thread - {r.session} && u.result == t.result[co := r.ok]
            && u.held == t.held[co := if co in t.held && t.held[co].Many?
                                      then Responses.Many(t.held[co].slots + [r.data]) else Responses.One(r.data)]
  {
  }
}
