/** TCP framing (src/lua_netpack.cpp): a payload of at most 65535 bytes behind a 2-byte big-endian
    length. */
module Netpack {
  import opened Wrappers
  import opened Bytes

  const MAX_PAYLOAD: nat := 0xFFFF

  /** The frame of one payload. */
  function Framed(p: Str): Str
    requires |p| <= MAX_PAYLOAD
  {
    [|p| / 256, |p| % 256] + p
  }

  function FramedAll(ps: seq<Str>): (s: Str)
    requires forall p :: p in ps ==> |p| <= MAX_PAYLOAD
  {
    if ps == [] then [] else Framed(ps[0]) + FramedAll(ps[1..])
  }

  function Be16(hi: int, lo: int): int {
    256 * hi + lo
  }

  /** A whole frame starts at `pos`. */
  predicate CompleteAt(s: Str, pos: nat) {
    pos + 2 <= |s| && pos + 2 + Be16(s[pos], s[pos + 1]) <= |s|
  }

  /** The position after the frame at `pos`. */
  function Next(s: Str, pos: nat): (next: nat)
    requires CompleteAt(s, pos)
    ensures pos + 2 <= next <= |s| && next - pos - 2 <= MAX_PAYLOAD
  {
    pos + 2 + Be16(s[pos], s[pos + 1])
  }

  /** The payloads of the whole frames from `pos` on. */
  function Msgs(s: Str, pos: nat): seq<Str>
    decreases |s| - pos
  {
    if CompleteAt(s, pos) then [s[pos + 2..Next(s, pos)]] + Msgs(s, Next(s, pos)) else []
  }

  /** Where the whole frames from `pos` on end. */
  function End(s: Str, pos: nat): (e: nat)
    requires pos <= |s|
    ensures pos <= e <= |s| && !CompleteAt(s, e)
    decreases |s| - pos
  {
    if CompleteAt(s, pos) then End(s, Next(s, pos)) else pos
  }

  datatype Split = Split(msgs: seq<Str>, rest: Str)

  /** All whole frames at the front of a stream, and what is left. */
  function Frames(s: Str): Split {
    Split(Msgs(s, 0), s[End(s, 0)..])
  }

  /** A frame is its length, high byte first, and the payload. */
  lemma FrameLayout(p: Str)
    requires |p| <= 65535
    ensures var f := Framed(p); |f| == 2 + |p| && 256 * (f[0] as int) + f[1] as int == |p| && f[2..] == p
  {
  }

  /** netpack.pack; None is the error for an oversized payload. */
  method Pack(data: Str) returns (frame: Option<Str>)
    ensures frame == if |data| > 65535 then None else Some(Framed(data))
  {
    if |data| > MAX_PAYLOAD {
      return None;
    }
    var buf := new byte[2 + |data|];
    buf[0] := (|data| / 256) % 256;
    buf[1] := |data| % 256;
    assert buf[..2] == [|data| / 256, |data| % 256];
    Put(buf, 2, data);
    assert buf[..] == buf[..2 + |data|];
    return Some(buf[..]);
  }

  /** netpack.unpack: a frame starting at the 1-based `offset`, with the offset after it. */
  function Unpack(buf: Str, offset: int): (r: Option<(int, Str)>)
    ensures r.None? <==> offset < 1 || !CompleteAt(buf, offset - 1)
    ensures r.Some? ==>
              && offset + 2 <= r.value.0 <= |buf| + 1 && |r.value.1| <= MAX_PAYLOAD
              && buf[offset - 1..r.value.0 - 1] == Framed(r.value.1)
  {
    var at := offset - 1;
    if at < 0 || at >= |buf| then None
    else
      var remaining := |buf| - at;
      if remaining < 2 then None
      else
        var n := Be16(buf[at], buf[at + 1]);
        if remaining < 2 + n then None
        else
          HeadBytes(buf, at);
          Some((at + 2 + n + 1, buf[at + 2..at + 2 + n]))
  }

  /** The bytes of a whole frame are the framing of its payload. */
  lemma HeadBytes(s: Str, pos: nat)
    requires CompleteAt(s, pos)
    ensures s[pos..Next(s, pos)] == Framed(s[pos + 2..Next(s, pos)])
  {
    var hi: int, lo: int := s[pos], s[pos + 1];
    var n := Be16(hi, lo);
    assert n / 256 == hi && n % 256 == lo;
    assert s[pos..Next(s, pos)] == [s[pos], s[pos + 1]] + s[pos + 2..Next(s, pos)];
  }

  /** netpack.filter. */
  method Filter(buf: Str, newData: Str) returns (msgs: seq<Str>, rest: Str)
    ensures Split(msgs, rest) == Frames(buf + newData)
  {
    var combined := buf + newData;
    var pos := 0;
    msgs := [];
    while pos + 2 <= |combined|
      invariant pos <= |combined|
      invariant msgs + Msgs(combined, pos) == Msgs(combined, 0)
      invariant End(combined, pos) == End(combined, 0)
    {
      var n := Be16(combined[pos], combined[pos + 1]);
      if pos + 2 + n > |combined| {
        break;
      }
      msgs := msgs + [combined[pos + 2..pos + 2 + n]];
      pos := pos + 2 + n;
    }
    assert msgs + [] == msgs;
    rest := if pos < |combined| then combined[pos..] else [];
  }

  /** Frames finds exactly the payloads that were framed: any list of payloads followed by bytes that
      do not hold a whole frame is taken apart into that list and those bytes. */
  lemma FramesOfFramed(ps: seq<Str>, rest: Str)
    requires forall p :: p in ps ==> |p| <= MAX_PAYLOAD
    requires !CompleteAt(rest, 0)
    ensures Frames(FramedAll(ps) + rest) == Split(ps, rest)
  {
    var s := FramedAll(ps) + rest;
    assert s[0..] == s;
    FramedFrom(s, 0, ps, rest);
    assert s[|s| - |rest|..] == rest;
  }

  lemma {:induction false} FramedFrom(s: Str, pos: nat, ps: seq<Str>, rest: Str)
    requires forall p :: p in ps ==> |p| <= MAX_PAYLOAD
    requires !CompleteAt(rest, 0) && pos <= |s| && s[pos..] == FramedAll(ps) + rest
    ensures Msgs(s, pos) == ps && End(s, pos) == |s| - |rest|
    decreases |ps|
  {
    if ps == [] {
      NotComplete(s, pos, rest);
    } else {
      FramedFirst(s, pos, ps[0], FramedAll(ps[1..]) + rest);
      FramedFrom(s, Next(s, pos), ps[1..], rest);
      assert ps == [ps[0]] + ps[1..];
    }
  }

  lemma NotComplete(s: Str, pos: nat, rest: Str)
    requires !CompleteAt(rest, 0) && pos <= |s| && s[pos..] == rest
    ensures !CompleteAt(s, pos)
  {
    if pos + 2 <= |s| {
      assert s[pos] == rest[0] && s[pos + 1] == rest[1];
    }
  }

  lemma FramedFirst(s: Str, pos: nat, p: Str, tail: Str)
    requires |p| <= MAX_PAYLOAD && pos <= |s| && s[pos..] == Framed(p) + tail
    ensures CompleteAt(s, pos) && s[pos + 2..Next(s, pos)] == p && s[Next(s, pos)..] == tail
  {
    var t := s[pos..];
    assert s[pos] == t[0] && s[pos + 1] == t[1];
    assert Be16(s[pos], s[pos + 1]) == |p|;
    assert s[pos + 2..pos + 2 + |p|] == t[2..2 + |p|];
    assert s[pos + 2 + |p|..] == t[2 + |p|..];
  }

  /** And nothing is lost or changed: framing the payloads again and appending the rest gives the
      stream back, for every stream. */
  lemma FramesRebuild(s: Str)
    ensures forall p :: p in Frames(s).msgs ==> |p| <= MAX_PAYLOAD
    ensures FramedAll(Frames(s).msgs) + Frames(s).rest == s
    ensures !CompleteAt(Frames(s).rest, 0)
  {
    MsgsRebuild(s, 0);
    var e := End(s, 0);
    assert s[..e] + s[e..] == s;
    if e + 2 <= |s| {
      assert s[e..][0] == s[e] && s[e..][1] == s[e + 1];
    }
  }

  lemma {:induction false} MsgsRebuild(s: Str, pos: nat)
    requires pos <= |s|
    ensures forall p :: p in Msgs(s, pos) ==> |p| <= MAX_PAYLOAD
    ensures FramedAll(Msgs(s, pos)) == s[pos..End(s, pos)]
    decreases |s| - pos
  {
    if CompleteAt(s, pos) {
      var next, e := Next(s, pos), End(s, pos);
      var p, ps := s[pos + 2..next], Msgs(s, next);
      MsgsRebuild(s, next);
      HeadBytes(s, pos);
      FramedAllCons(p, ps);
      assert Msgs(s, pos) == [p] + ps;
      assert s[pos..next] + s[next..e] == s[pos..e];
    }
  }

  lemma FramedAllCons(p: Str, ps: seq<Str>)
    requires |p| <= MAX_PAYLOAD && forall q :: q in ps ==> |q| <= MAX_PAYLOAD
    ensures forall q :: q in [p] + ps ==> |q| <= MAX_PAYLOAD
    ensures FramedAll([p] + ps) == Framed(p) + FramedAll(ps)
  {
    assert ([p] + ps)[1..] == ps;
  }

  /** Cutting a stream in two: the rest of the first call is the buffer of the second. */
  lemma FramesOfCut(a: Str, b: Str)
    ensures
      var f := Frames(a);
      var g := Frames(f.rest + b);
      Frames(a + b) == Split(f.msgs + g.msgs, g.rest)
  {
    var e := End(a, 0);
    CutFrom(a, b, 0);
    assert (a + b)[e..] == a[e..] + b;
    Shifted(a + b, e, 0);
    var g := End(a[e..] + b, 0);
    assert (a + b)[e..][g..] == (a + b)[e + g..];
  }

  /** The frames of `a` are frames of `a + b`, which goes on where they end. */
  lemma {:induction false} CutFrom(a: Str, b: Str, pos: nat)
    requires pos <= |a|
    ensures Msgs(a + b, pos) == Msgs(a, pos) + Msgs(a + b, End(a, pos))
    ensures End(a + b, pos) == End(a + b, End(a, pos))
    decreases |a| - pos
  {
    if CompleteAt(a, pos) {
      var next := Next(a, pos);
      assert (a + b)[pos] == a[pos] && (a + b)[pos + 1] == a[pos + 1];
      assert (a + b)[pos + 2..next] == a[pos + 2..next];
      CutFrom(a, b, next);
    }
  }

  /** Positions count from the start of the stream or from `k`. */
  lemma {:induction false} Shifted(s: Str, k: nat, pos: nat)
    requires k + pos <= |s|
    ensures Msgs(s[k..], pos) == Msgs(s, k + pos) && k + End(s[k..], pos) == End(s, k + pos)
    decreases |s| - pos
  {
    var t := s[k..];
    if pos + 2 <= |t| {
      assert t[pos] == s[k + pos] && t[pos + 1] == s[k + pos + 1];
    }
    if CompleteAt(t, pos) {
      var next := Next(t, pos);
      assert t[pos + 2..next] == s[k + pos + 2..k + next];
      Shifted(s, k, next);
    }
  }

  /** The read loop of a connection: one filter call per arriving chunk. */
  method FilterAll(chunks: seq<Str>) returns (msgs: seq<Str>, rest: Str)
    ensures Split(msgs, rest) == Frames(Flatten(chunks))
  {
    msgs, rest := [], [];
    var i := 0;
    assert chunks[..0] == [];
    while i < |chunks|
      invariant 0 <= i <= |chunks|
      invariant Split(msgs, rest) == Frames(Flatten(chunks[..i]))
    {
      FramesOfCut(Flatten(chunks[..i]), chunks[i]);
      FlattenSnoc(chunks[..i], chunks[i]);
      assert chunks[..i + 1] == chunks[..i] + [chunks[i]];
      var more;
      more, rest := Filter(rest, chunks[i]);
      msgs := msgs + more;
      i := i + 1;
    }
    assert chunks[..i] == chunks;
  }

  /** Payloads found by calling unpack again and again from `offset`. */
  function UnpackFrom(buf: Str, offset: int): seq<Str>
    decreases |buf| - offset
  {
    match Unpack(buf, offset)
    case None => []
    case Some((next, p)) => [p] + UnpackFrom(buf, next)
  }

  lemma {:induction false} UnpackFromIsMsgs(buf: Str, offset: int)
    requires 1 <= offset <= |buf| + 1
    ensures UnpackFrom(buf, offset) == Msgs(buf, offset - 1)
    decreases |buf| - offset
  {
    if CompleteAt(buf, offset - 1) {
      UnpackFromIsMsgs(buf, Next(buf, offset - 1) + 1);
    }
  }

  /** They are the payloads filter finds. */
  lemma UnpackFromIsFrames(buf: Str, offset: int)
    requires 1 <= offset <= |buf| + 1
    ensures UnpackFrom(buf, offset) == Frames(buf[offset - 1..]).msgs
  {
    UnpackFromIsMsgs(buf, offset);
    Shifted(buf, offset - 1, 0);
  }
}
