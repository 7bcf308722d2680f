/** Byte strings, little-endian fields, and copies into fixed-size buffers. */
module Bytes {
  import opened Numbers

  type byte = x: int | 0 <= x < 256

  /** A Lua string or a C buffer with its length. */
  type Str = seq<byte>

  function Pow256(w: nat): (p: nat)
    ensures p >= 1
  {
    if w == 0 then 1 else 256 * Pow256(w - 1)
  }

  lemma Pow256Values()
    ensures Pow256(1) == 0x100 && Pow256(2) == 0x1_0000
    ensures Pow256(4) == UINT32_SPAN && Pow256(8) == UINT64_SPAN
  {
    assert Pow256(1) == 256 * Pow256(0);
    assert Pow256(3) == 256 * Pow256(2);
    assert Pow256(5) == 256 * Pow256(4);
    assert Pow256(7) == 256 * Pow256(6);
  }

  /** The low `w` bytes of `n`, least significant byte first. */
  function Le(n: nat, w: nat): (s: Str)
    ensures |s| == w
  {
    if w == 0 then [] else [n % 256] + Le(n / 256, w - 1)
  }

  function FromLe(s: Str): (n: nat) {
    if s == [] then 0 else s[0] + 256 * FromLe(s[1..])
  }

  /** Reading back what was written gives the number reduced to its width. */
  lemma {:induction false} LeRoundTrip(n: nat, w: nat)
    ensures FromLe(Le(n, w)) == n % Pow256(w)
  {
    if w > 0 {
      var s := Le(n, w);
      assert s[1..] == Le(n / 256, w - 1);
      LeRoundTrip(n / 256, w - 1);
      var p := Pow256(w - 1);
      DigitMod(n, p);
    }
  }

  lemma DigitMod(n: nat, p: nat)
    requires p > 0
    ensures n % 256 + 256 * ((n / 256) % p) == n % (256 * p)
  {
    var q, d := n / 256, n % 256;
    var a, b := q / p, q % p;
    assert n == a * (256 * p) + (256 * b + d) by {
      assert q == a * p + b;
      assert n == 256 * q + d;
      assert 256 * (a * p) == a * (256 * p);
    }
    ModUnique(n, 256 * p, a, 256 * b + d);
  }

  lemma ModUnique(n: nat, m: nat, a: nat, r: nat)
    requires m > 0 && n == a * m + r && r < m
    ensures n % m == r && n / m == a
  {
    MulDistinct(n / m, a, m, n % m, r);
  }

  lemma MulDistinct(a: int, b: int, m: nat, r: int, s: int)
    requires a * m + r == b * m + s && 0 <= r < m && 0 <= s < m
    ensures a == b && r == s
  {
    if a > b {
      MulGap(a, b, m);
    } else if a < b {
      MulGap(b, a, m);
    }
  }

  lemma MulGap(a: int, b: int, m: nat)
    requires a > b
    ensures a * m >= b * m + m
  {
    var d := a - b - 1;
    assert d * m >= 0;
    assert a * m == (b + 1 + d) * m == b * m + m + d * m;
  }

  /** Writing back what was read gives the same bytes. */
  lemma {:induction false} FromLeRoundTrip(s: Str)
    ensures FromLe(s) < Pow256(|s|)
    ensures Le(FromLe(s), |s|) == s
  {
    if s != [] {
      FromLeRoundTrip(s[1..]);
      var rest := FromLe(s[1..]);
      assert (s[0] + 256 * rest) % 256 == s[0] && (s[0] + 256 * rest) / 256 == rest;
    }
  }

  lemma Le16RoundTrip(n: nat)
    requires n < 0x10000
    ensures FromLe(Le(n, 2)) == n
  {
    Pow256Values();
    LeRoundTrip(n, 2);
  }

  lemma Le64RoundTrip(n: nat)
    requires n < UINT64_SPAN
    ensures FromLe(Le(n, 8)) == n
  {
    Pow256Values();
    LeRoundTrip(n, 8);
  }

  lemma Le32RoundTrip(n: nat)
    requires n < UINT32_SPAN
    ensures FromLe(Le(n, 4)) == n
  {
    Pow256Values();
    LeRoundTrip(n, 4);
  }

  // ----- Little-endian fields, byte by byte -----------------------------------------------------------

  function Word2(s: Str, at: nat): int
    requires at + 2 <= |s|
  {
    (s[at] as int) + 0x100 * (s[at + 1] as int)
  }

  function Word4(s: Str, at: nat): int
    requires at + 4 <= |s|
  {
    Word2(s, at) + 0x1_0000 * Word2(s, at + 2)
  }

  function Word8(s: Str, at: nat): int
    requires at + 8 <= |s|
  {
    Word4(s, at) + 0x1_0000_0000 * Word4(s, at + 4)
  }

  lemma FromLe2(s: Str)
    requires |s| == 2
    ensures FromLe(s) == Word2(s, 0)
  {
    assert FromLe(s[1..]) == s[1] + 256 * FromLe(s[1..][1..]);
  }

  lemma FromLe4(s: Str)
    requires |s| == 4
    ensures FromLe(s) == Word4(s, 0)
  {
    FromLe2(s[1..][1..]);
    assert FromLe(s[1..]) == s[1] + 256 * FromLe(s[1..][1..]);
  }

  lemma FromLe8(s: Str)
    requires |s| == 8
    ensures FromLe(s) == Word8(s, 0)
  {
    var t := s[4..];
    FromLe4(t);
    assert s[1..][1..][1..][1..] == t;
    assert FromLe(s[1..][1..][1..]) == s[3] + 256 * FromLe(t);
    assert FromLe(s[1..][1..]) == s[2] + 256 * FromLe(s[1..][1..][1..]);
    assert FromLe(s[1..]) == s[1] + 256 * FromLe(s[1..][1..]);
  }

  // ----- Concatenation ------------------------------------------------------------------------------

  function Flatten(parts: seq<Str>): Str {
    if parts == [] then [] else parts[0] + Flatten(parts[1..])
  }

  lemma {:induction false} FlattenAppend(a: seq<Str>, b: seq<Str>)
    ensures Flatten(a + b) == Flatten(a) + Flatten(b)
  {
    if a == [] {
      assert a + b == b;
    } else {
      assert (a + b)[1..] == a[1..] + b;
      FlattenAppend(a[1..], b);
    }
  }

  lemma FlattenSnoc(a: seq<Str>, s: Str)
    ensures Flatten(a + [s]) == Flatten(a) + s
  {
    FlattenAppend(a, [s]);
    assert Flatten([s]) == s + Flatten([]);
  }

  // ----- Fixed-size buffers -------------------------------------------------------------------------

  /** memcpy(buf + off, data, |data|). */
  method Put(buf: array<byte>, off: nat, data: Str)
    requires off + |data| <= buf.Length
    modifies buf
    ensures buf[..off + |data|] == old(buf[..off]) + data
    ensures buf[off + |data|..] == old(buf[off + |data|..])
  {
    var i := 0;
    while i < |data|
      invariant 0 <= i <= |data|
      invariant forall k :: 0 <= k < buf.Length ==>
                  buf[k] == if off <= k < off + i then data[k - off] else old(buf[k])
    {
      buf[off + i] := data[i];
      i := i + 1;
    }
  }
}
