/** Cluster responses (src/lua_cluster.cpp) and their way back to the waiting caller: packing, the
    per-session collection in lualib/skynet/socketchannel.lua, and the final concat in
    service/clustersender.lua. */
module ClusterResponse {
  import opened Wrappers
  import opened Numbers
  import opened Bytes
  import opened Netpack
  import opened Cluster

  /** The number of parts, which the code keeps in an `int`. */
  function Parts(size: nat): nat
    requires size > 0
  {
    var part := Int32(PartCount(size));
    if part < 0 then 0 else part
  }

  datatype Reply = Reply(session: nat, ok: bool, msg: Str)

  predicate Large(r: Reply) {
    r.ok && |r.msg| > MULTI_PART
  }

  /** Failures longer than one part are cut. */
  function Kept(r: Reply): Str {
    if !r.ok && |r.msg| > MULTI_PART then r.msg[..MULTI_PART] else r.msg
  }

  function ReplyCount(r: Reply): nat {
    if Large(r) then 1 + Parts(|r.msg|) else 1
  }

  function ReplyBody(session: nat, tag: byte, data: Str): Str {
    Le(session, 4) + [tag] + data
  }

  /** The `i`-th packet of a response, without its 2-byte header. */
  function Body(r: Reply, i: nat): (s: Str)
    requires i < ReplyCount(r)
    ensures |s| <= MAX_PAYLOAD
  {
    if !Large(r) then ReplyBody(r.session, if r.ok then 1 else 0, Kept(r))
    else if i == 0 then ReplyBody(r.session, 2, Le(Uint32(|r.msg|), 4))
    else ReplyBody(r.session, if i < PartCount(|r.msg|) then 3 else 4, Chunk(r.msg, i - 1))
  }

  // ----- Packing ------------------------------------------------------------------------------------

  lemma ReplyLayout(session: nat, tag: byte, data: Str)
    requires |data| + 5 <= MAX_PAYLOAD
    ensures Framed(ReplyBody(session, tag, data))
            == [(|data| + 5) / 256, (|data| + 5) % 256] + Le(session, 4) + [tag] + data
  {
  }

  method PackPart(buf: array<byte>, session: nat, tag: byte, data: Str) returns (packet: Str)
    requires buf.Length == TEMP_LENGTH && |data| <= MULTI_PART
    modifies buf
    ensures packet == Framed(ReplyBody(session, tag, data))
  {
    buf[6] := tag;
    assert buf[2..][4] == tag;
    FillHeader(buf, |data| + 5);
    assert buf[2..][4] == tag;
    FillUint32(buf, 2, session);
    assert buf[..7] == buf[..6] + [tag];
    Put(buf, 7, data);
    ReplyLayout(session, tag, data);
    packet := buf[..|data| + 7];
  }

  /** The parts counted never exceed those there are; under 2^46 bytes they are all of them. */
  lemma PartsFit(size: nat)
    requires size > 0
    ensures Parts(size) <= PartCount(size)
    ensures size <= 0x3FFF_FFFF_8000 ==> Parts(size) == PartCount(size)
  {
  }

  method PackParts(session: nat, msg: Str) returns (packets: seq<Str>)
    requires MULTI_PART < |msg|
    ensures |packets| == ReplyCount(Reply(session, true, msg))
    ensures forall i :: 0 <= i < |packets| ==>
              packets[i] == Framed(Body(Reply(session, true, msg), i))
  {
    ghost var r := Reply(session, true, msg);
    var part := Int32((|msg| - 1) / MULTI_PART + 1);
    if part < 0 {
      part := 0;      // the loop is not entered
    }
    ghost var all := PartCount(|msg|);
    PartsFit(|msg|);
    var buf := new byte[TEMP_LENGTH];
    FillHeader(buf, 9);
    FillUint32(buf, 2, session);
    buf[6] := 2;
    assert buf[..7] == buf[..6] + [2];
    FillUint32(buf, 7, Uint32(|msg|));
    ReplyLayout(session, 2, Le(Uint32(|msg|), 4));
    packets := [buf[..11]];
    var ptr, remaining := 0, |msg|;
    for i := 0 to part
      invariant ptr == if i < all then i * MULTI_PART else |msg|
      invariant remaining == |msg| - ptr
      invariant |packets| == i + 1
      invariant forall j :: 0 <= j <= i ==> packets[j] == Framed(Body(r, j))
    {
      var s := if remaining > MULTI_PART then MULTI_PART else remaining;
      assert msg[ptr..ptr + s] == Chunk(msg, i);
      var packet := PackPart(buf, session, if remaining > MULTI_PART then 3 else 4, msg[ptr..ptr + s]);
      packets := packets + [packet];
      remaining := remaining - s;
      ptr := ptr + s;
    }
  }

  method PackSingle(session: nat, ok: bool, msg: Str) returns (packet: Str)
    requires |msg| <= MULTI_PART
    ensures packet == Framed(ReplyBody(session, if ok then 1 else 0, msg))
  {
    var buf := new byte[TEMP_LENGTH];
    FillHeader(buf, |msg| + 5);
    FillUint32(buf, 2, session);
    buf[6] := if ok then 1 else 0;
    ghost var tag := buf[6];
    assert buf[..7] == buf[..6] + [tag];
    Put(buf, 7, msg);
    ReplyLayout(session, tag, msg);
    packet := buf[..|msg| + 7];
  }

  /** packresponse; None is the error for an unusable message. */
  method PackResponse(session: int, ok: bool, payload: Payload) returns (packets: Option<seq<Str>>)
    ensures packets.None? <==> payload.Unusable?
    ensures packets.Some? ==>
              var r := Reply(Uint32(session), ok, if payload.Data? then payload.s else []);
              && |packets.value| == ReplyCount(r)
              && forall i :: 0 <= i < ReplyCount(r) ==> packets.value[i] == Framed(Body(r, i))
  {
    if payload.Unusable? {
      return None;
    }
    var msg := if payload.Data? then payload.s else [];
    if !ok {
      if |msg| > MULTI_PART {
        msg := msg[..MULTI_PART];
      }
    } else if |msg| > MULTI_PART {
      var parts := PackParts(Uint32(session), msg);
      return Some(parts);
    }
    var packet := PackSingle(Uint32(session), ok, msg);
    return Some([packet]);
  }

  // ----- Unpacking and collecting -------------------------------------------------------------------

  datatype Response = Response(session: nat, ok: bool, data: Slot, padding: bool)

  /** unpackresponse; None when the packet is malformed and nothing is returned. */
  function UnpackResponse(s: Str): Option<Response> {
    if |s| < 5 then None
    else
      var session, data := FromLe(s[..4]), Piece(s[5..]);
      match s[4]
      case 0 => Some(Response(session, false, data, false))
      case 1 => Some(Response(session, true, data, false))
      case 4 => Some(Response(session, true, data, false))
      case 2 =>
        if |s| != 9 then None
        else Some(Response(session, true, Size(FromLe(s[5..9])), true))
      case 3 => Some(Response(session, true, data, true))
      case _ => None
  }

  lemma UnpackReplyBody(session: nat, tag: byte, data: Str)
    requires session < UINT32_SPAN && tag <= 4 && (tag == 2 ==> |data| == 4)
    ensures UnpackResponse(ReplyBody(session, tag, data))
            == Some(Response(session, tag != 0,
                             if tag == 2 then Size(FromLe(data)) else Piece(data),
                             tag == 2 || tag == 3))
  {
    var s := ReplyBody(session, tag, data);
    Le32RoundTrip(session);
    assert s[..4] == Le(session, 4) && s[5..] == data;
    if tag == 2 {
      assert s[5..9] == data;
    }
  }

  /** What is stored for a waiting coroutine. */
  datatype Held = One(data: Slot) | Many(slots: seq<Slot>)

  /** A socket channel: which coroutine waits for a session, and what arrived for it. */
  datatype Tables = Tables(thread: map<nat, nat>, held: map<nat, Held>, result: map<nat, bool>)

  function Collected(held: Option<Held>, data: Slot): seq<Slot> {
    if held.Some? && held.value.Many? then held.value.slots + [data] else [data]
  }

  function Lookup<T>(m: map<nat, T>, k: nat): Option<T> {
    if k in m then Some(m[k]) else None
  }

  class Channel {
    var t: Tables

    constructor ()
      ensures t == Tables(map[], map[], map[])
    {
      t := Tables(map[], map[], map[]);
    }

    /** One turn of dispatch_by_session. */
    method Arrive(r: Response)
      modifies this
      ensures t == Arrived(old(t), r)
    {
      if r.session !in t.thread {
        return;
      }
      var co := t.thread[r.session];
      var prev := Lookup(t.held, co);
      if r.padding {
        var slots := if prev.Some? && prev.value.Many? then prev.value.slots else [];
        assert slots + [r.data] == Collected(prev, r.data);
        t := t.(held := t.held[co := Many(slots + [r.data])]);
      } else {
        t := t.(thread := t.thread - {r.session}, result := t.result[co := r.ok]);
        if prev.Some? && prev.value.Many? {
          t := t.(held := t.held[co := Many(prev.value.slots + [r.data])]);
        } else {
          t := t.(held := t.held[co := One(r.data)]);
        }
      }
      assert co in t.result ==> t.result == old(t).result[co := t.result[co]];
      assert co !in t.result ==> t.result == old(t).result - {co};
    }
  }

  function Arrived(t: Tables, r: Response): Tables {
    if r.session !in t.thread then t
    else
      var co := t.thread[r.session];
      var w := Next(View(t, r.session, co), r);
      Tables(if w.waiting then t.thread else t.thread - {r.session},
             if w.held.Some? then t.held[co := w.held.value] else t.held - {co},
             if w.result.Some? then t.result[co := w.result.value] else t.result - {co})
  }

  /** The state of one waiting coroutine alone. */
  datatype Wait = Wait(waiting: bool, held: Option<Held>, result: Option<bool>)

  function View(t: Tables, session: nat, co: nat): Wait {
    Wait(session in t.thread && t.thread[session] == co, Lookup(t.held, co), Lookup(t.result, co))
  }

  function Next(w: Wait, r: Response): Wait {
    if !w.waiting then w
    else if r.padding then Wait(true, Some(Many(Collected(w.held, r.data))), w.result)
    else if w.held.Some? && w.held.value.Many? then
      Wait(false, Some(Many(Collected(w.held, r.data))), Some(r.ok))
    else Wait(false, Some(One(r.data)), Some(r.ok))
  }

  predicate Injective(m: map<nat, nat>) {
    forall a, b :: a in m && b in m && m[a] == m[b] ==> a == b
  }

  /** One packet concerns the coroutine of its session and nobody else. */
  lemma OnlyItsSession(t: Tables, r: Response, session: nat, co: nat)
    requires Injective(t.thread)
    requires co in t.thread.Values ==> session in t.thread && t.thread[session] == co
    requires session in t.thread ==> t.thread[session] == co
    ensures Injective(Arrived(t, r).thread)
    ensures View(Arrived(t, r), session, co)
            == if r.session == session then Next(View(t, session, co), r) else View(t, session, co)
  {
    if r.session in t.thread {
      assert t.thread[r.session] in t.thread.Values;
    }
  }

  function AllArrived(t: Tables, rs: seq<Response>): Tables
    decreases |rs|
  {
    if rs == [] then t else AllArrived(Arrived(t, rs[0]), rs[1..])
  }

  function AllNext(w: Wait, rs: seq<Response>): Wait
    decreases |rs|
  {
    if rs == [] then w else AllNext(Next(w, rs[0]), rs[1..])
  }

  /** The packets of one session, in order. */
  function ForSession(rs: seq<Response>, session: nat): seq<Response> {
    if rs == [] then []
    else (if rs[0].session == session then [rs[0]] else []) + ForSession(rs[1..], session)
  }

  /** Responses of any number of sessions may be interleaved: what a coroutine ends up with depends
      only on the packets of its own session. */
  lemma {:induction false} SessionsAreIndependent(t: Tables, rs: seq<Response>, session: nat, co: nat)
    requires Injective(t.thread)
    requires co in t.thread.Values ==> session in t.thread && t.thread[session] == co
    requires session in t.thread ==> t.thread[session] == co
    ensures View(AllArrived(t, rs), session, co)
            == AllNext(View(t, session, co), ForSession(rs, session))
    decreases |rs|
  {
    if rs != [] {
      var u := Arrived(t, rs[0]);
      OnlyItsSession(t, rs[0], session, co);
      SessionsAreIndependent(u, rs[1..], session, co);
      var rest := ForSession(rs[1..], session);
      if rs[0].session == session {
        assert ([rs[0]] + rest)[1..] == rest;
      } else {
        assert [] + rest == rest;
      }
    }
  }

  // ----- Round trip -----------------------------------------------------------------------------------

  /** What the caller of cluster.call gets: the message, an error with its text, or nothing. */
  datatype Answer = Value(msg: Str) | Failure(text: Slot) | NoAnswer

  function Answered(w: Wait): Answer {
    if w.waiting || w.held.None? || w.result.None? then NoAnswer
    else if !w.result.value then (if w.held.value.One? then Failure(w.held.value.data) else NoAnswer)
    else
      match w.held.value
      case One(Piece(s)) => Value(s)
      case One(Size(_)) => NoAnswer
      case Many(slots) =>
        match Reassembled(slots)
        case Some(s) => Value(s)
        case None => NoAnswer
  }

  /** The unpacked packets of one response. */
  ghost predicate PacketsOf(r: Reply, rs: seq<Response>) {
    |rs| == ReplyCount(r) && forall i :: 0 <= i < |rs| ==> UnpackResponse(Body(r, i)) == Some(rs[i])
  }

  /** What has been collected of a large response after `n` packets. */
  function SlotsAfter(msg: Str, n: nat): seq<Slot>
    requires msg != [] && 1 <= n <= 1 + PartCount(|msg|)
  {
    [Size(|msg|)] + Pieces(msg, n - 1)
  }

  lemma OnePart(r: Reply, n: nat, u: Response)
    requires Large(r) && |r.msg| < UINT32_SPAN && r.session < UINT32_SPAN
    requires n < ReplyCount(r) && UnpackResponse(Body(r, n)) == Some(u)
    ensures u.ok && u.padding == (n + 1 < ReplyCount(r))
    ensures (if n == 0 then [] else SlotsAfter(r.msg, n)) + [u.data] == SlotsAfter(r.msg, n + 1)
  {
    if n == 0 {
      Le32RoundTrip(|r.msg|);
      UnpackReplyBody(r.session, 2, Le(Uint32(|r.msg|), 4));
    } else {
      UnpackReplyBody(r.session, if n < PartCount(|r.msg|) then 3 else 4, Chunk(r.msg, n - 1));
    }
  }

  lemma {:induction false} PartsArrive(r: Reply, rs: seq<Response>, n: nat, w: Wait)
    requires Large(r) && |r.msg| < UINT32_SPAN && r.session < UINT32_SPAN
    requires PacketsOf(r, rs) && n < |rs|
    requires w == Wait(true, if n == 0 then None else Some(Many(SlotsAfter(r.msg, n))), None)
    ensures AllNext(w, rs[n..]) == Wait(false, Some(Many(SlotsAfter(r.msg, |rs|))), Some(true))
    decreases |rs| - n
  {
    OnePart(r, n, rs[n]);
    var v := Next(w, rs[n]);
    assert [] + [rs[n].data] == [rs[n].data];
    assert rs[n..][1..] == rs[n + 1..];
    if n + 1 < |rs| {
      PartsArrive(r, rs, n + 1, v);
    }
  }

  /** Round trip: a successful response of any size comes back whole, a failure comes back as exactly
      its first 0x8000 bytes. */
  lemma ResponseRoundTrip(r: Reply, rs: seq<Response>)
    requires PacketsOf(r, rs) && |r.msg| < INT32_SPAN && r.session < UINT32_SPAN
    ensures Answered(AllNext(Wait(true, None, None), rs))
            == if r.ok then Value(r.msg)
               else Failure(Piece(r.msg[..if |r.msg| > MULTI_PART then MULTI_PART else |r.msg|]))
  {
    if Large(r) {
      assert rs[0..] == rs;
      PartsArrive(r, rs, 0, Wait(true, None, None));
      AllPiecesReassemble(r.msg);
    } else {
      UnpackReplyBody(r.session, if r.ok then 1 else 0, Kept(r));
      assert r.msg[..|r.msg|] == r.msg;
      assert UnpackResponse(Body(r, 0)) == Some(rs[0]);
      assert rs[1..] == [];
      assert AllNext(Wait(true, None, None), rs) == Next(Wait(true, None, None), rs[0]);
    }
  }

  /** The same with the packets of other sessions in between. */
  lemma ResponseAmongOthers(t: Tables, rs: seq<Response>, r: Reply, co: nat)
    requires Injective(t.thread) && r.session in t.thread && t.thread[r.session] == co
    requires co !in t.held && co !in t.result
    requires PacketsOf(r, ForSession(rs, r.session))
    requires |r.msg| < INT32_SPAN && r.session < UINT32_SPAN
    ensures Answered(View(AllArrived(t, rs), r.session, co))
            == if r.ok then Value(r.msg)
               else Failure(Piece(r.msg[..if |r.msg| > MULTI_PART then MULTI_PART else |r.msg|]))
  {
    SessionsAreIndependent(t, rs, r.session, co);
    ResponseRoundTrip(r, ForSession(rs, r.session));
  }
}
