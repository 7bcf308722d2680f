/** The cluster wire protocol (src/lua_cluster.cpp): request and response packets, splitting a large
    message into parts of 0x8000 bytes, and joining the parts again. */
module Cluster {
  import opened Wrappers
  import opened Numbers
  import opened Bytes
  import opened Netpack

  const TEMP_LENGTH: nat := 0x8200
  const MULTI_PART: nat := 0x8000

  /** First argument of packrequest: a number, a string, or anything else. */
  datatype Address = Number(n: int) | Name(s: Str) | Nowhere

  /** Third argument: a string or a buffer with its size, nil, or anything else. */
  datatype Payload = Data(s: Str) | Nothing | Unusable

  datatype Request = Request(addr: Address, session: nat, push: bool, msg: Str)

  predicate GoodAddress(a: Address) {
    a.Number? || (a.Name? && 1 <= |a.s| <= 255)
  }

  /** Requests that packrequest accepts; a length is a `uint32_t`. */
  predicate GoodRequest(r: Request) {
    GoodAddress(r.addr) && 0 < r.session < INT32_SPAN && |r.msg| < UINT32_SPAN
  }

  // ----- Packets without their 2-byte header ----------------------------------------------------

  function AddressBytes(a: Address): Str
    requires GoodAddress(a)
  {
    if a.Number? then Le(Uint32(a.n), 4) else [|a.s|] + a.s
  }

  function SmallTag(a: Address): byte {
    if a.Number? then 0 else 0x80
  }

  function BeginTag(a: Address, push: bool): byte {
    if a.Number? then (if push then 0x41 else 1) else (if push then 0xc1 else 0x81)
  }

  function SmallBody(a: Address, session: nat, msg: Str): Str
    requires GoodAddress(a)
  {
    [SmallTag(a)] + AddressBytes(a) + Le(session, 4) + msg
  }

  function BeginBody(a: Address, session: nat, push: bool, size: nat): Str
    requires GoodAddress(a)
  {
    [BeginTag(a, push)] + AddressBytes(a) + Le(session, 4) + Le(size, 4)
  }

  function PartCount(size: nat): (n: nat)
    requires size > 0
    ensures (n - 1) * MULTI_PART < size <= n * MULTI_PART
  {
    (size - 1) / MULTI_PART + 1
  }

  function PartEnd(size: nat, j: nat): (e: nat)
    requires size > 0 && j < PartCount(size)
    ensures j * MULTI_PART < e <= size && e - j * MULTI_PART <= MULTI_PART
    ensures j + 1 < PartCount(size) ==> e == (j + 1) * MULTI_PART
  {
    if j + 1 == PartCount(size) then size else (j + 1) * MULTI_PART
  }

  function Chunk(msg: Str, j: nat): (c: Str)
    requires msg != [] && j < PartCount(|msg|)
    ensures 0 < |c| <= MULTI_PART
  {
    msg[j * MULTI_PART..PartEnd(|msg|, j)]
  }

  function PartBody(session: nat, msg: Str, j: nat): Str
    requires msg != [] && j < PartCount(|msg|)
  {
    [if j + 1 < PartCount(|msg|) then 2 else 3] + Le(session, 4) + Chunk(msg, j)
  }

  /** How many packets a request takes. */
  function PacketCount(r: Request): nat {
    if |r.msg| < MULTI_PART then 1 else 1 + PartCount(|r.msg|)
  }

  /** The `i`-th packet of a request. */
  function Body(r: Request, i: nat): (s: Str)
    requires GoodRequest(r) && i < PacketCount(r)
    ensures 0 < |s| <= MAX_PAYLOAD
  {
    if |r.msg| < MULTI_PART then SmallBody(r.addr, if r.push then 0 else r.session, r.msg)
    else if i == 0 then BeginBody(r.addr, r.session, r.push, |r.msg|)
    else PartBody(r.session, r.msg, i - 1)
  }

  // ----- Packers ----------------------------------------------------------------------------------

  method FillUint32(buf: array<byte>, off: nat, n: nat)
    requires off + 4 <= buf.Length
    modifies buf
    ensures buf[..off + 4] == old(buf[..off]) + Le(n, 4)
    ensures buf[off + 4..] == old(buf[off + 4..])
  {
    Put(buf, off, Le(n, 4));
  }

  /** The precondition is the assertion in the code. */
  method FillHeader(buf: array<byte>, sz: nat)
    requires sz < 0x10000 && buf.Length >= 2
    modifies buf
    ensures buf[..2] == [sz / 256, sz % 256]
    ensures buf[2..] == old(buf[2..])
  {
    buf[0] := sz / 256;
    buf[1] := sz % 256;
  }

  /** A frame as the packers lay it out: header, tag and address bytes, session, then the rest. */
  lemma Layout(head: Str, session: nat, rest: Str)
    requires |head| + 4 + |rest| <= MAX_PAYLOAD
    ensures var n := |head| + 4 + |rest|;
            Framed(head + Le(session, 4) + rest) == [n / 256, n % 256] + head + Le(session, 4) + rest
  {
  }

  method PackNumber(n: int, session: nat, msg: Str, push: bool) returns (packet: Str, parts: nat)
    requires 0 < session < INT32_SPAN && |msg| < UINT32_SPAN
    ensures packet == Framed(Body(Request(Number(n), session, push, msg), 0))
    ensures parts == PacketCount(Request(Number(n), session, push, msg)) - 1
  {
    var buf := new byte[TEMP_LENGTH];
    var addr := Uint32(n);
    if |msg| < MULTI_PART {
      FillHeader(buf, |msg| + 9);
      buf[2] := 0;
      assert buf[..3] == buf[..2] + [0];
      FillUint32(buf, 3, addr);
      FillUint32(buf, 7, if push then 0 else session);
      Put(buf, 11, msg);
      Layout([0] + Le(addr, 4), if push then 0 else session, msg);
      packet := buf[..|msg| + 11];
      parts := 0;
    } else {
      FillHeader(buf, 13);
      buf[2] := if push then 0x41 else 1;
      assert buf[..3] == buf[..2] + [BeginTag(Number(n), push)];
      FillUint32(buf, 3, addr);
      FillUint32(buf, 7, session);
      FillUint32(buf, 11, |msg|);
      Layout([BeginTag(Number(n), push)] + Le(addr, 4), session, Le(|msg|, 4));
      packet := buf[..15];
      parts := (|msg| - 1) / MULTI_PART + 1;
    }
  }

  method PutName(buf: array<byte>, tag: byte, name: Str)
    requires 1 <= |name| <= 255 && 4 + |name| <= buf.Length
    modifies buf
    ensures buf[..4 + |name|] == old(buf[..2]) + ([tag] + ([|name|] + name))
  {
    buf[2] := tag;
    buf[3] := |name|;
    assert buf[..4] == old(buf[..2]) + [tag, |name|];
    Put(buf, 4, name);
  }

  method PackNamed(tag: byte, name: Str, session: nat, rest: Str) returns (packet: Str)
    requires 1 <= |name| <= 255 && |rest| <= MULTI_PART
    ensures packet == Framed([tag] + ([|name|] + name) + Le(session, 4) + rest)
  {
    var n := |name|;
    var buf := new byte[TEMP_LENGTH];
    FillHeader(buf, |rest| + 6 + n);
    PutName(buf, tag, name);
    FillUint32(buf, 4 + n, session);
    Put(buf, 8 + n, rest);
    Layout([tag] + ([n] + name), session, rest);
    packet := buf[..8 + n + |rest|];
  }

  /** None: the name is not 1 to 255 bytes long. */
  method PackString(name: Option<Str>, session: nat, msg: Str, push: bool)
    returns (r: Option<(Str, nat)>)
    requires 0 < session < INT32_SPAN && |msg| < UINT32_SPAN
    ensures r.Some? <==> name.Some? && 1 <= |name.value| <= 255
    ensures r.Some? ==>
              var req := Request(Name(name.value), session, push, msg);
              r.value == (Framed(Body(req, 0)), PacketCount(req) - 1)
  {
    if name.None? || |name.value| < 1 || |name.value| > 255 {
      return None;
    }
    if |msg| < MULTI_PART {
      var packet := PackNamed(0x80, name.value, if push then 0 else session, msg);
      return Some((packet, 0));
    } else {
      var packet := PackNamed(if push then 0xc1 else 0x81, name.value, session, Le(|msg|, 4));
      return Some((packet, (|msg| - 1) / MULTI_PART + 1));
    }
  }

  method PackMulti(session: nat, msg: Str) returns (packets: seq<Str>)
    requires 0 < |msg| < UINT32_SPAN
    ensures |packets| == PartCount(|msg|)
    ensures forall j :: 0 <= j < |packets| ==> packets[j] == Framed(PartBody(session, msg, j))
  {
    var part := (|msg| - 1) / MULTI_PART + 1;
    var buf := new byte[TEMP_LENGTH];
    var sz, ptr := |msg|, 0;
    packets := [];
    for i := 0 to part
      invariant ptr == if i < part then i * MULTI_PART else |msg|
      invariant sz == |msg| - ptr
      invariant |packets| == i
      invariant forall j :: 0 <= j < i ==> packets[j] == Framed(PartBody(session, msg, j))
    {
      var s;
      if sz > MULTI_PART {
        s := MULTI_PART;
        buf[2] := 2;
      } else {
        s := sz;
        buf[2] := 3;
      }
      ghost var tag := buf[2];
      FillHeader(buf, s + 5);
      assert buf[..3] == buf[..2] + [tag];
      FillUint32(buf, 3, session);
      Put(buf, 7, msg[ptr..ptr + s]);
      assert msg[ptr..ptr + s] == Chunk(msg, i);
      packets := packets + [buf[..s + 7]];
      sz := sz - s;
      ptr := ptr + s;
    }
  }

  datatype Packed = Packed(first: Str, nextSession: nat, padding: seq<Str>) | PackError

  /** What packrequest (push false) and packpush (push true) return for a good request. */
  ghost predicate PacketsOf(r: Request, p: Packed)
    requires GoodRequest(r)
  {
    && p.Packed?
    && p.first == Framed(Body(r, 0))
    && |p.padding| == PacketCount(r) - 1
    && (forall i :: 1 <= i < PacketCount(r) ==> p.padding[i - 1] == Framed(Body(r, i)))
    && p.nextSession == (if r.session + 1 < INT32_SPAN then r.session + 1 else 1)
  }

  method PackRequest(addr: Address, session: int, payload: Payload, push: bool) returns (p: Packed)
    ensures p.PackError? <==> payload.Unusable? || Int32(session) <= 0 || !GoodAddress(addr)
    ensures p.Packed? ==>
              var msg := if payload.Data? then payload.s[..Uint32(|payload.s|)] else [];
              PacketsOf(Request(addr, Int32(session), push, msg), p)
    ensures p.Packed? ==> p.nextSession == if Int32(session) == 0x7FFF_FFFF then 1 else Int32(session) + 1
  {
    if payload.Unusable? {
      return PackError;
    }
    var msg := if payload.Data? then payload.s[..Uint32(|payload.s|)] else [];
    var s := Int32(session);
    if s <= 0 {
      return PackError;
    }
    var first, multi;
    if addr.Number? {
      first, multi := PackNumber(addr.n, s, msg, push);
    } else {
      var r := PackString(if addr.Name? then Some(addr.s) else None, s, msg, push);
      if r.None? {
        return PackError;
      }
      first, multi := r.value.0, r.value.1;
    }
    var next := Uint32(s) + 1;
    if next > INT32_SPAN - 1 {
      next := 1;
    }
    var padding := [];
    if multi != 0 {
      padding := PackMulti(s, msg);
    }
    return Packed(first, next, padding);
  }

  // ----- Unpacking a request ------------------------------------------------------------------------

  /** The values unpackrequest returns: a whole request, the announcement of a multi-part one, one of
      its parts, or an error. */
  datatype Unpacked =
    | Whole(addr: Address, session: nat, msg: Str, push: bool)
    | Begin(addr: Address, session: nat, size: nat, push: bool)
    | Part(session: nat, msg: Str, more: bool)
    | Malformed

  function UnpackNumber(s: Str): Unpacked {
    if |s| < 9 then Malformed
    else
      var session := FromLe(s[5..9]);
      Whole(Number(FromLe(s[1..5])), session, s[9..], session == 0)
  }

  function UnpackBeginNumber(s: Str, push: bool): Unpacked {
    if |s| != 13 then Malformed
    else Begin(Number(FromLe(s[1..5])), FromLe(s[5..9]), FromLe(s[9..13]), push)
  }

  function UnpackPart(s: Str): Unpacked {
    if |s| < 5 then Malformed
    else Part(FromLe(s[1..5]), s[5..], s[0] == 2)
  }

  function UnpackString(s: Str): Unpacked {
    if |s| < 2 then Malformed
    else
      var n: int := s[1];
      if |s| < n + 6 then Malformed
      else
        var session := FromLe(s[n + 2..n + 6]);
        Whole(Name(s[2..n + 2]), session, s[n + 6..], session == 0)
  }

  function UnpackBeginString(s: Str, push: bool): Unpacked {
    if |s| < 2 then Malformed
    else
      var n: int := s[1];
      if |s| < n + 10 then Malformed
      else Begin(Name(s[2..n + 2]), FromLe(s[n + 2..n + 6]), FromLe(s[n + 6..n + 10]), push)
  }

  function UnpackRequest(s: Str): Unpacked {
    if |s| == 0 then Malformed
    else
      match s[0]
      case 0 => UnpackNumber(s)
      case 1 => UnpackBeginNumber(s, false)
      case 0x41 => UnpackBeginNumber(s, true)
      case 2 => UnpackPart(s)
      case 3 => UnpackPart(s)
      case 0x80 => UnpackString(s)
      case 0x81 => UnpackBeginString(s, false)
      case 0xc1 => UnpackBeginString(s, true)
      case _ => Malformed
  }

  /** The address as it arrives: numbers are reduced to 32 bits. */
  function WireAddress(a: Address): Address {
    if a.Number? then Number(Uint32(a.n)) else a
  }

  lemma UnpackSmallBody(a: Address, session: nat, msg: Str)
    requires GoodAddress(a) && session < UINT32_SPAN
    ensures UnpackRequest(SmallBody(a, session, msg))
            == Whole(WireAddress(a), session, msg, session == 0)
  {
    var s := SmallBody(a, session, msg);
    Le32RoundTrip(session);
    if a.Number? {
      Le32RoundTrip(Uint32(a.n));
      assert s[1..5] == Le(Uint32(a.n), 4) && s[5..9] == Le(session, 4) && s[9..] == msg;
    } else {
      var n := |a.s|;
      assert s[1] == n && s[2..n + 2] == a.s;
      assert s[n + 2..n + 6] == Le(session, 4) && s[n + 6..] == msg;
    }
  }

  lemma UnpackBeginBody(a: Address, session: nat, push: bool, size: nat)
    requires GoodAddress(a) && session < UINT32_SPAN && size < UINT32_SPAN
    ensures UnpackRequest(BeginBody(a, session, push, size))
            == Begin(WireAddress(a), session, size, push)
  {
    var s := BeginBody(a, session, push, size);
    Le32RoundTrip(session);
    Le32RoundTrip(size);
    if a.Number? {
      Le32RoundTrip(Uint32(a.n));
      assert s[1..5] == Le(Uint32(a.n), 4) && s[5..9] == Le(session, 4) && s[9..13] == Le(size, 4);
    } else {
      var n := |a.s|;
      assert s[1] == n && s[2..n + 2] == a.s;
      assert s[n + 2..n + 6] == Le(session, 4) && s[n + 6..n + 10] == Le(size, 4);
    }
  }

  lemma UnpackPartBody(session: nat, msg: Str, j: nat)
    requires session < UINT32_SPAN && msg != [] && j < PartCount(|msg|)
    ensures UnpackRequest(PartBody(session, msg, j))
            == Part(session, Chunk(msg, j), j + 1 < PartCount(|msg|))
  {
    var s := PartBody(session, msg, j);
    Le32RoundTrip(session);
    assert s[1..5] == Le(session, 4) && s[5..] == Chunk(msg, j);
  }

  /** A received whole request is the packing of what it is unpacked to, byte for byte. */
  lemma UnpackedWholeIsPacked(s: Str)
    requires UnpackRequest(s).Whole? && GoodAddress(UnpackRequest(s).addr)
    ensures var u := UnpackRequest(s); s == SmallBody(u.addr, u.session, u.msg)
  {
    if s[0] == 0 {
      NumberRepacks(s);
    } else {
      NameRepacks(s);
    }
  }

  lemma NumberRepacks(s: Str)
    requires |s| >= 9 && s[0] == 0
    ensures s == SmallBody(Number(FromLe(s[1..5])), FromLe(s[5..9]), s[9..])
  {
    FromLeRoundTrip(s[1..5]);
    FromLeRoundTrip(s[5..9]);
    Pow256Values();
    assert s == [s[0]] + s[1..5] + s[5..9] + s[9..];
  }

  lemma NameRepacks(s: Str)
    requires |s| >= 2 && s[0] == 0x80 && 1 <= s[1] && |s| - s[1] >= 6
    ensures var n: int := s[1];
            s == SmallBody(Name(s[2..n + 2]), FromLe(s[n + 2..n + 6]), s[n + 6..])
  {
    var n: int := s[1];
    FromLeRoundTrip(s[n + 2..n + 6]);
    assert s == [s[0]] + ([s[1]] + s[2..n + 2]) + s[n + 2..n + 6] + s[n + 6..];
  }

  // ----- Joining parts ------------------------------------------------------------------------------

  /** An element of the table that append fills: the announced size, or the bytes of a part. */
  datatype Slot = Size(n: int) | Piece(s: Str)

  /** The bytes of the pieces at the front of a list of slots. */
  function PieceBytes(slots: seq<Slot>): Str {
    if slots == [] || slots[0].Size? then [] else slots[0].s + PieceBytes(slots[1..])
  }

  /** concat: None unless the first slot is the size and the pieces after it have that total. */
  function Reassembled(slots: seq<Slot>): Option<Str> {
    if slots == [] || slots[0].Piece? then None
    else
      var bytes := PieceBytes(slots[1..]);
      if Int32(|bytes|) != Int32(slots[0].n) then None else Some(bytes)
  }

  lemma NextPiece(slots: seq<Slot>, idx: nat, bytes: Str)
    requires 1 <= idx < |slots| && slots[idx].Piece?
    requires PieceBytes(slots[1..]) == bytes + PieceBytes(slots[idx..])
    ensures PieceBytes(slots[1..]) == bytes + slots[idx].s + PieceBytes(slots[idx + 1..])
  {
    assert slots[idx..][1..] == slots[idx + 1..];
    assert PieceBytes(slots[idx..]) == slots[idx].s + PieceBytes(slots[idx + 1..]);
  }

  method Concat(slots: seq<Slot>) returns (r: Option<Str>)
    ensures r == Reassembled(slots)
  {
    if slots == [] || slots[0].Piece? {
      return None;
    }
    var size := Int32(slots[0].n);
    var bytes: Str, total, idx := [], 0, 1;
    while idx < |slots| && slots[idx].Piece?
      invariant 1 <= idx <= |slots|
      invariant PieceBytes(slots[1..]) == bytes + PieceBytes(slots[idx..])
      invariant total == Int32(|bytes|)
    {
      var str := slots[idx].s;
      NextPiece(slots, idx, bytes);
      Int32Add(|bytes|, |str|);
      bytes := bytes + str;
      total := Int32(total + Int32(|str|));
      idx := idx + 1;
    }
    assert PieceBytes(slots[idx..]) == [];
    assert bytes == PieceBytes(slots[1..]);
    if total != size {
      return None;
    }
    return Some(bytes);
  }

  /** The first `m` parts of a message as table slots. */
  function Pieces(msg: Str, m: nat): (slots: seq<Slot>)
    requires msg != [] && m <= PartCount(|msg|)
    ensures |slots| == m && forall j :: 0 <= j < m ==> slots[j].Piece?
  {
    if m == 0 then [] else Pieces(msg, m - 1) + [Piece(Chunk(msg, m - 1))]
  }

  lemma {:induction false} PieceBytesSnoc(slots: seq<Slot>, s: Str)
    requires forall j :: 0 <= j < |slots| ==> slots[j].Piece?
    ensures PieceBytes(slots + [Piece(s)]) == PieceBytes(slots) + s
  {
    if slots == [] {
      assert [Piece(s)][1..] == [];
    } else {
      assert (slots + [Piece(s)])[1..] == slots[1..] + [Piece(s)];
      PieceBytesSnoc(slots[1..], s);
    }
  }

  /** Any pieces behind a number are joined, up to the end of the list or the next number, if and only if their
      total agrees with the number in its low 32 bits. */
  lemma ReassembledIff(n: int, parts: seq<Str>, rest: seq<Slot>)
    requires rest == [] || rest[0].Size?
    ensures var slots := [Size(n)] + seq(|parts|, i requires 0 <= i < |parts| => Piece(parts[i])) + rest;
            Reassembled(slots) == if (|Flatten(parts)| - n) % 0x1_0000_0000 == 0 then Some(Flatten(parts)) else None
  {
    var pieces := seq(|parts|, i requires 0 <= i < |parts| => Piece(parts[i]));
    assert ([Size(n)] + pieces + rest)[1..] == pieces + rest;
    PiecesFlatten(parts, rest);
    SameLow(|Flatten(parts)|, n);
  }

  lemma {:induction false} PiecesFlatten(parts: seq<Str>, rest: seq<Slot>)
    requires rest == [] || rest[0].Size?
    ensures PieceBytes(seq(|parts|, i requires 0 <= i < |parts| => Piece(parts[i])) + rest) == Flatten(parts)
    decreases |parts|
  {
    var pieces := seq(|parts|, i requires 0 <= i < |parts| => Piece(parts[i]));
    if parts == [] {
      assert pieces + rest == rest;
    } else {
      var tail := parts[1..];
      PiecesFlatten(tail, rest);
      assert (pieces + rest)[1..] == seq(|tail|, i requires 0 <= i < |tail| => Piece(tail[i])) + rest;
    }
  }

  lemma SameLow(a: int, b: int)
    ensures Int32(a) == Int32(b) <==> (a - b) % UINT32_SPAN == 0
  {
    var j := Wraps(a);
    var k := Wraps(b);
    if Int32(a) == Int32(b) {
      assert a - b == (j - k) * UINT32_SPAN;
    }
    if (a - b) % UINT32_SPAN == 0 {
      var d := (a - b) / UINT32_SPAN;
      assert a == b + d * UINT32_SPAN;
      Int32Shift(b, d);
    }
  }

  /** The first parts of a message join to its beginning, all of them to the message. */
  lemma {:induction false} PiecesJoin(msg: Str, m: nat)
    requires msg != [] && m <= PartCount(|msg|)
    ensures PieceBytes(Pieces(msg, m)) == msg[..if m == 0 then 0 else PartEnd(|msg|, m - 1)]
  {
    if m > 0 {
      PiecesJoin(msg, m - 1);
      PieceBytesSnoc(Pieces(msg, m - 1), Chunk(msg, m - 1));
    }
  }

  /** With the size in front the parts give the message back; without it they give nothing. */
  lemma AllPiecesReassemble(msg: Str)
    requires msg != []
    ensures Reassembled([Size(|msg|)] + Pieces(msg, PartCount(|msg|))) == Some(msg)
    ensures Reassembled(Pieces(msg, PartCount(|msg|))) == None
  {
    var n := PartCount(|msg|);
    PiecesJoin(msg, n);
    assert msg[..PartEnd(|msg|, n - 1)] == msg;
    SizedReassemble(msg, Pieces(msg, n));
  }

  lemma SizedReassemble(msg: Str, slots: seq<Slot>)
    requires PieceBytes(slots) == msg
    ensures Reassembled([Size(|msg|)] + slots) == Some(msg)
  {
    assert ([Size(|msg|)] + slots)[1..] == slots;
  }
}
