/** The bytes of the serializer's format (src/lua_seri.cpp), written out: what each kind of value is packed
    to, and what unpacking makes of headers that packing never writes. */
module SeriFormat {
  import opened Numbers
  import opened Bytes
  import opened Seri

  // ----- Packing --------------------------------------------------------------------------------------

  /** An integer takes 1 byte if it is 0, 2 up to 255, 3 up to 65535, 5 for any other in the 32-bit range,
      negative or not, and 9 beyond. */
  ghost predicate IsInt(t: Str, n: int) {
    if n == 0 then t == [2]
    else if 0 < n < 0x100 then t == [10, n]
    else if 0x100 <= n < 0x1_0000 then |t| == 3 && t[0] == 18 && Word2(t, 1) == n
    else if 0x1_0000 <= n < 0x8000_0000 then |t| == 5 && t[0] == 34 && Word4(t, 1) == n
    else if -0x8000_0000 <= n < 0 then |t| == 5 && t[0] == 34 && Word4(t, 1) == n + 0x1_0000_0000
    else |t| == 9 && t[0] == 50 && Word8(t, 1) == if n < 0 then n + 0x1_0000_0000_0000_0000 else n
  }

  lemma IntLayout(n: int)
    requires -INT64_SPAN <= n < INT64_SPAN
    ensures IsInt(Encode(Int(n)), n)
  {
    if n < -INT32_SPAN || n >= INT32_SPAN {
      WideLayout(n);
    } else if n < 0 || n >= 0x1_0000 {
      NarrowLayout(n);
    } else if n >= 0x100 {
      var t := Encode(Int(n));
      Le16RoundTrip(n);
      assert t[1..] == Le(n, 2);
      FromLe2(t[1..]);
      assert Word2(t[1..], 0) == Word2(t, 1);
    }
  }

  lemma WideLayout(n: int)
    requires -INT64_SPAN <= n < -INT32_SPAN || INT32_SPAN <= n < INT64_SPAN
    ensures IsInt(Encode(Int(n)), n)
  {
    var u := if n < 0 then n + UINT64_SPAN else n;
    assert n % UINT64_SPAN == u && n != Int32(n);
    assert EncodeInt(n) == [50] + Le(u, 8);
    WideWord(EncodeInt(n), u);
  }

  lemma WideWord(t: Str, u: nat)
    requires u < UINT64_SPAN && t == [50] + Le(u, 8)
    ensures |t| == 9 && t[0] == 50 && Word8(t, 1) == u
  {
    Le64RoundTrip(u);
    assert t[1..] == Le(u, 8);
    FromLe8(t[1..]);
    assert Word8(t[1..], 0) == Word8(t, 1);
  }

  lemma NarrowLayout(n: int)
    requires -INT32_SPAN <= n < 0 || 0x1_0000 <= n < INT32_SPAN
    ensures IsInt(Encode(Int(n)), n)
  {
    var t := Encode(Int(n));
    assert t == [34] + Le(Uint32(n), 4);
    Le32RoundTrip(Uint32(n));
    assert t[1..] == Le(Uint32(n), 4);
    FromLe4(t[1..]);
    assert Word4(t[1..], 0) == Word4(t, 1);
  }

  /** A string shorter than 32 bytes has its length in the header, one shorter than 2^16 in two bytes behind
      it, any other in four. */
  ghost predicate IsText(t: Str, s: Str) {
    if |s| < 32 then t == [4 + 8 * |s|] + s
    else if |s| < 0x1_0000 then |t| == 3 + |s| && t[0] == 21 && Word2(t, 1) == |s| && t[3..] == s
    else |t| == 5 + |s| && t[0] == 37 && Word4(t, 1) == |s| % 0x1_0000_0000 && t[5..] == s
  }

  lemma TextLayout(s: Str)
    ensures IsText(Encode(Text(s)), s)
  {
    var t, n := Encode(Text(s)), |s|;
    if n >= 0x1_0000 {
      Pow256Values();
      LeRoundTrip(n, 4);
      FromLe4(Le(n, 4));
      assert t[1..5] == Le(n, 4);
    } else if n >= 32 {
      Le16RoundTrip(n);
      FromLe2(Le(n, 2));
      assert t[1..3] == Le(n, 2);
    }
  }

  lemma FixedLayout()
    ensures Encode(Nil) == [0] && Encode(Bool(false)) == [1] && Encode(Bool(true)) == [9]
  {
    assert Combine(TYPE_BOOLEAN, 0) == 1 && Combine(TYPE_BOOLEAN, 1) == 9;
  }

  lemma RawLayout(bits: Str)
    ensures Encode(Double(bits)) == [66] + bits && Encode(Pointer(bits)) == [3] + bits
  {
  }

  /** A table starts with the size of its array part, in the header below 31 and otherwise as an integer behind
      it; then come the items, and then keys and values by turns up to a zero byte, without those of the array
      part. */
  lemma TableLayout(items: seq<Value>, entries: seq<(Value, Value)>) returns (header: Str)
    requires |items| < INT64_SPAN
    ensures Encode(Table(items, entries))
            == header + EncodeItems(items) + EncodeEntries(entries, |items|) + [0]
    ensures if |items| < 31 then header == [6 + 8 * |items|]
            else header != [] && header[0] == 254 && IsInt(header[1..], |items|)
  {
    header := TableHeader(|items|);
    if |items| >= 31 {
      IntLayout(|items|);
      assert header[1..] == Encode(Int(|items|));
    }
  }

  lemma EntryLayout(key: Value, value: Value, n: nat)
    ensures EncodeEntries([(key, value)], n)
            == if key.Int? && 1 <= key.n <= n then [] else Encode(key) + Encode(value)
  {
    assert EncodeEntries([(key, value)], n) == EncodeEntry((key, value), n) + EncodeEntries([], n);
  }

  // ----- Unpacking ------------------------------------------------------------------------------------

  /** What unpacking makes of a number at `at`: one that is cut off is zero and takes none of the bytes, and so
      is one with an unknown cookie. */
  ghost predicate ReadsNumber(s: Str, at: nat, r: Outcome<Value>)
    requires at < |s|
  {
    var cookie, next, left := s[at] / 8, at + 1, |s| - at - 1;
    if cookie == 1 then r == if left < 1 then Got(Int(0), next) else Got(Int(s[next]), next + 1)
    else if cookie == 2 then r == if left < 2 then Got(Int(0), next) else Got(Int(Word2(s, next)), next + 2)
    else if cookie == 4 then
      r == if left < 4 then Got(Int(0), next) else Got(Int(Signed(Word4(s, next), 0x8000_0000)), next + 4)
    else if cookie == 6 then
      r == if left < 8 then Got(Int(0), next) else Got(Int(Signed(Word8(s, next), INT64_SPAN)), next + 8)
    else if cookie == 8 then
      r == if left < 8 then Got(Double(EIGHT_ZEROS), next) else Got(Double(s[next..next + 8]), next + 8)
    else r == Got(Int(0), next)
  }

  /** The length of a long string that is cut off is 0; a string that is cut off is nil. */
  ghost predicate ReadsLongText(s: Str, at: nat, r: Outcome<Value>)
    requires at < |s|
  {
    var cookie, next, left := s[at] / 8, at + 1, |s| - at - 1;
    if cookie == 2 then r == if left < 2 then Got(Text([]), next) else TextOf(s, next + 2, Word2(s, next))
    else r == if left < 4 then Got(Text([]), next) else TextOf(s, next + 4, Word4(s, next))
  }

  const EIGHT_ZEROS: Str := [0, 0, 0, 0, 0, 0, 0, 0]

  function Signed(u: int, half: int): int {
    if u < half then u else u - 2 * half
  }

  function TextOf(s: Str, at: nat, n: int): Outcome<Value>
    requires at <= |s| && 0 <= n
  {
    if at + n <= |s| then Got(Text(s[at..at + n]), at + n) else Got(Nil, at)
  }

  /** Every header but that of a table, also those that packing never writes. */
  lemma ScalarReads(s: Str, at: nat)
    requires at < |s| && s[at] % 8 != 6
    ensures
      var r, kind, cookie, next := Decode(s, at), s[at] % 8, s[at] / 8, at + 1;
      && (kind == 0 || kind == 7 ==> r == Got(Nil, next))
      && (kind == 1 ==> r == Got(Bool(cookie != 0), next))
      && (kind == 2 ==> ReadsNumber(s, at, r))
      && (kind == 3 ==>
            r == if next + 8 <= |s| then Got(Pointer(s[next..next + 8]), next + 8)
                 else Got(Pointer(EIGHT_ZEROS), next))
      && (kind == 4 ==> r == TextOf(s, next, cookie))
      && (kind == 5 ==> ReadsLongText(s, at, r))
  {
    var kind := s[at] % 8;
    if kind == 2 {
      NumberReads(s, at);
    } else if kind == 5 {
      LongTextReads(s, at);
    }
  }

  lemma NumberReads(s: Str, at: nat)
    requires at < |s| && s[at] % 8 == 2
    ensures ReadsNumber(s, at, Decode(s, at))
  {
    var cookie, next: nat := s[at] / 8, at + 1;
    var head: int := s[at];
    assert Decode(s, at) == var r := ReadScalar(s, next, 2, head / 8); Got(r.v, r.end);
    if cookie != 8 {
      IntReads(s, next, cookie);
    }
  }

  lemma IntReads(s: Str, at: nat, cookie: int)
    requires at <= |s|
    ensures var r, left := ReadInt(s, at, cookie), |s| - at;
            && (cookie == 1 ==> r == if left < 1 then Read(0, at) else Read(s[at], at + 1))
            && (cookie == 2 ==> r == if left < 2 then Read(0, at) else Read(Word2(s, at), at + 2))
            && (cookie == 4 ==>
                  r == if left < 4 then Read(0, at) else Read(Signed(Word4(s, at), 0x8000_0000), at + 4))
            && (cookie == 6 ==>
                  r == if left < 8 then Read(0, at) else Read(Signed(Word8(s, at), INT64_SPAN), at + 8))
            && (cookie !in {1, 2, 4, 6} ==> r == Read(0, at))
  {
    var w := Width(cookie);
    if w > 0 && Has(s, at, w) {
      FieldReads(s, at, w);
    }
  }

  lemma FieldReads(s: Str, at: nat, w: nat)
    requires at + w <= |s| && w in {1, 2, 4, 8}
    ensures FromLe(s[at..at + w])
            == if w == 1 then s[at] else if w == 2 then Word2(s, at) else if w == 4 then Word4(s, at)
               else Word8(s, at)
    ensures FromLe(s[at..at + w]) < if w == 8 then UINT64_SPAN else UINT32_SPAN
  {
    var t := s[at..at + w];
    if w == 1 {
      assert t[1..] == [];
    } else if w == 2 {
      FromLe2(t);
    } else if w == 4 {
      FromLe4(t);
    } else {
      FromLe8(t);
    }
  }

  lemma LongTextReads(s: Str, at: nat)
    requires at < |s| && s[at] % 8 == 5
    ensures ReadsLongText(s, at, Decode(s, at))
  {
    var next, head: int := at + 1, s[at];
    LongTextIs(s, at);
    LengthReads(s, next, head / 8);
    EmptyText(s, next);
  }

  lemma LongTextIs(s: Str, at: nat)
    requires at < |s| && s[at] % 8 == 5
    ensures var n := ReadLength(s, at + 1, s[at] / 8);
            Decode(s, at) == TextOf(s, n.end, n.v)
  {
    var head: int := s[at];
    var n := ReadLength(s, at + 1, head / 8);
    var r := ReadText(s, n.end, n.v);
    assert ReadScalar(s, at + 1, 5, head / 8) == r;
    assert Decode(s, at) == Got(r.v, r.end);
  }

  lemma EmptyText(s: Str, at: nat)
    requires at <= |s|
    ensures TextOf(s, at, 0) == Got(Text([]), at)
  {
    assert s[at..at + 0] == [];
  }

  lemma LengthReads(s: Str, at: nat, cookie: int)
    requires at <= |s|
    ensures var r, left := ReadLength(s, at, cookie), |s| - at;
            && (cookie == 2 ==> r == if left < 2 then Read(0, at) else Read(Word2(s, at), at + 2))
            && (cookie != 2 ==> r == if left < 4 then Read(0, at) else Read(Word4(s, at), at + 4))
  {
    var w := if cookie == 2 then 2 else 4;
    if Has(s, at, w) {
      FieldReads(s, at, w);
    }
  }

  // ----- Tables ---------------------------------------------------------------------------------------

  /** The size of the array part is in the header below 31; else it is the integer behind it, whose own header
      may be of any type, and 31 when nothing is behind it.  Negative sizes count as 0. */
  lemma TableReads(s: Str, at: nat)
    requires at < |s| && s[at] % 8 == 6
    ensures
      var cookie, next: nat := s[at] / 8, at + 1;
      var size := if cookie < 31 || next == |s| then Read(cookie, next) else ReadInt(s, next + 1, s[next] / 8);
      var n := if -0x8000_0000 <= size.v < 0x8000_0000 then size.v else Int32(size.v);
      Decode(s, at) == DecodeTable(s, size.end, if n < 0 then 0 else n)
  {
    var head: int := s[at];
    if head / 8 == 31 && at + 1 < |s| {
      var kind: int := s[at + 1];
      assert ReadArraySize(s, at + 1, 31) == var r := ReadInt(s, at + 2, kind / 8); Read(Int32(r.v), r.end);
    }
  }

  /** The parts of a table: the items one after the other, then the entries. */
  lemma PartsRead(s: Str, at: nat, n: nat)
    requires at <= |s|
    ensures n == 0 ==> DecodeItems(s, at, n) == Got([], at)
    ensures n > 0 ==>
              var first := Decode(s, at);
              if first.Error? || DecodeItems(s, first.end, n - 1).Error? then DecodeItems(s, at, n).Error?
              else var rest := DecodeItems(s, first.end, n - 1);
                   DecodeItems(s, at, n) == Got([first.v] + rest.v, rest.end)
    ensures var items := DecodeItems(s, at, n);
            if items.Error? || DecodeEntries(s, items.end).Error? then DecodeTable(s, at, n).Error?
            else var entries := DecodeEntries(s, items.end);
                 DecodeTable(s, at, n) == Got(Table(items.v, entries.v), entries.end)
  {
  }

  /** Exponent all ones and a mantissa that is not zero, in eight bytes. */
  ghost predicate NotANumber(bits: Str) {
    |bits| == 8 && bits[7] in {127, 255} && bits[6] >= 240
    && (bits[6] > 240 || exists i :: 0 <= i < 6 && bits[i] != 0)
  }

  /** Entries end at the end of the bytes or at any header of type 0; a nil or NaN key is an error. */
  lemma EntriesRead(s: Str, at: nat)
    requires at <= |s|
    ensures at == |s| ==> DecodeEntries(s, at) == Got([], at)
    ensures at < |s| && s[at] % 8 == 0 ==> DecodeEntries(s, at) == Got([], at + 1)
    ensures at < |s| && s[at] % 8 != 0 ==>
              var key := Decode(s, at);
              if key.Error? || Decode(s, key.end).Error? then DecodeEntries(s, at).Error?
              else
                var value := Decode(s, key.end);
                var rest := DecodeEntries(s, value.end);
                if key.v.Nil? || (key.v.Double? && NotANumber(key.v.bits)) || rest.Error?
                then DecodeEntries(s, at).Error?
                else DecodeEntries(s, at) == Got([(key.v, value.v)] + rest.v, rest.end)
  {
    if at < |s| && s[at] % 8 != 0 && Decode(s, at).Got? && Decode(s, at).v.Double? {
      NaNBytes(Decode(s, at).v.bits);
    }
  }

  lemma NaNBytes(bits: Str)
    ensures IsNaN(bits) <==> NotANumber(bits)
  {
    if |bits| == 8 {
      var hi: int, lo: int := bits[7], bits[6];
      assert hi % 128 == 127 <==> hi in {127, 255};
      assert lo / 16 == 15 <==> lo >= 240;
    }
  }
}
