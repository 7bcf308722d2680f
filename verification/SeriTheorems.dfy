/** Packing and unpacking are inverse, packed values delimit themselves, and packing fails on exactly
    the trees that are too deep or hold something unsupported. */
module SeriTheorems {
  import opened Numbers
  import opened Bytes
  import opened Seri

  /** The bytes `t` stand in `s` at position `at`. */
  ghost predicate At(s: Str, at: nat, t: Str) {
    at + |t| <= |s| && s[at..at + |t|] == t
  }

  lemma AtSplit(s: Str, at: nat, a: Str, b: Str)
    requires At(s, at, a + b)
    ensures At(s, at, a) && At(s, at + |a|, b)
  {
    var t := s[at..at + |a + b|];
    assert a == t[..|a|] == s[at..at + |a|];
    assert b == t[|a|..] == s[at + |a|..at + |a| + |b|];
  }

  lemma AtSplitLast(s: Str, at: nat, a: Str, b: Str)
    requires At(s, at, a + b + [0])
    ensures At(s, at, a) && At(s, at + |a|, b + [0])
  {
    assert a + b + [0] == a + (b + [0]);
    AtSplit(s, at, a, b + [0]);
  }

  lemma AtHead(s: Str, at: nat, t: Str)
    requires At(s, at, t) && |t| > 0
    ensures s[at] == t[0] && At(s, at + 1, t[1..])
  {
    assert s[at..at + |t|][0] == s[at];
    assert s[at..at + |t|][1..] == s[at + 1..at + |t|];
  }

  // ----- What can be sent, and what arrives -----------------------------------------------------------

  /** A Lua value with strings under 2^32 bytes whose written parts have supported types.  Depth is
      not limited here. */
  predicate Sendable(v: Value)
    decreases v
  {
    match v
    case Int(n) => -INT64_SPAN <= n < INT64_SPAN
    case Double(bits) => |bits| == 8
    case Pointer(bits) => |bits| == 8
    case Text(s) => |s| < UINT32_SPAN
    case Table(items, entries) =>
      |items| < INT32_SPAN && AllSendable(items) && EntriesSendable(entries, |items|)
    case Unsupported => false
    case _ => true
  }

  predicate AllSendable(items: seq<Value>)
    decreases items
  {
    items == [] || (Sendable(items[0]) && AllSendable(items[1..]))
  }

  predicate EntriesSendable(entries: seq<(Value, Value)>, n: nat)
    decreases entries
  {
    entries == [] || (EntrySendable(entries[0], n) && EntriesSendable(entries[1..], n))
  }

  predicate EntrySendable(entry: (Value, Value), n: nat)
    decreases entry
  {
    InArray(entry.0, n) || (!BadKey(entry.0) && Sendable(entry.0) && Sendable(entry.1))
  }

  /** The tree without the entries that a traversal repeats from the array part. */
  function Normal(v: Value): Value
    decreases v
  {
    if v.Table? then Table(NormalItems(v.items), NormalEntries(v.entries, |v.items|)) else v
  }

  function NormalItems(items: seq<Value>): (r: seq<Value>)
    ensures |r| == |items|
    decreases items
  {
    if items == [] then [] else [Normal(items[0])] + NormalItems(items[1..])
  }

  function NormalEntries(entries: seq<(Value, Value)>, n: nat): seq<(Value, Value)>
    decreases entries
  {
    if entries == [] then []
    else NormalEntry(entries[0], n) + NormalEntries(entries[1..], n)
  }

  function NormalEntry(entry: (Value, Value), n: nat): seq<(Value, Value)>
    decreases entry
  {
    if InArray(entry.0, n) then [] else [(Normal(entry.0), Normal(entry.1))]
  }

  // ----- Scalars --------------------------------------------------------------------------------------

  lemma IntRange(n: int)
    requires -INT64_SPAN <= n < INT64_SPAN
    ensures Int64(n % UINT64_SPAN) == n
    ensures n == Int32(n) ==> Int32(Uint32(n)) == n
  {
  }

  /** Reading what was written for an integer, after its header byte. */
  lemma IntTrip(s: Str, at: nat, n: int)
    requires -INT64_SPAN <= n < INT64_SPAN && At(s, at, EncodeInt(n))
    ensures s[at] % 8 == TYPE_NUMBER && s[at] / 8 != NUMBER_DOUBLE
    ensures var cookie: int := s[at]; ReadInt(s, at + 1, cookie / 8) == Read(n, at + |EncodeInt(n)|)
  {
    AtHead(s, at, EncodeInt(n));
    if n == 0 {
    } else if n != Int32(n) {
      LargeIntTrip(s, at, n);
    } else {
      SmallIntTrip(s, at, n);
    }
  }

  lemma LargeIntTrip(s: Str, at: nat, n: int)
    requires -INT64_SPAN <= n < INT64_SPAN && n != Int32(n) && At(s, at, EncodeInt(n))
    requires s[at] == EncodeInt(n)[0]
    requires s[at + 1..at + |EncodeInt(n)|] == EncodeInt(n)[1..]
    ensures s[at] % 8 == TYPE_NUMBER && s[at] / 8 == NUMBER_QWORD
    ensures ReadInt(s, at + 1, NUMBER_QWORD) == Read(n, at + |EncodeInt(n)|)
  {
    assert EncodeInt(n)[1..] == Le(n % UINT64_SPAN, 8);
    Le64RoundTrip(n % UINT64_SPAN);
    IntRange(n);
  }

  lemma SmallIntTrip(s: Str, at: nat, n: int)
    requires -INT32_SPAN <= n < INT32_SPAN && n != 0 && At(s, at, EncodeInt(n))
    requires s[at] == EncodeInt(n)[0]
    requires s[at + 1..at + |EncodeInt(n)|] == EncodeInt(n)[1..]
    ensures s[at] % 8 == TYPE_NUMBER && s[at] / 8 != NUMBER_DOUBLE
    ensures var cookie: int := s[at]; ReadInt(s, at + 1, cookie / 8) == Read(n, at + |EncodeInt(n)|)
  {
    var t := EncodeInt(n);
    if n < 0 || n >= 0x10000 {
      assert t[1..] == Le(Uint32(n), 4);
      Le32RoundTrip(Uint32(n));
      IntRange(n);
    } else if n < 0x100 {
      assert t[1..] == [n];
      assert FromLe([n]) == n + 256 * FromLe([]);
    } else {
      assert t[1..] == Le(n, 2);
      Le16RoundTrip(n);
    }
  }

  lemma TextTrip(s: Str, at: nat, text: Str)
    requires |text| < UINT32_SPAN && At(s, at, EncodeText(text))
    ensures Decode(s, at) == Got(Text(text), at + |EncodeText(text)|)
  {
    var h := TextHeader(|text|);
    AtSplit(s, at, h, text);
    AtHead(s, at, h);
    if |text| < MAX_COOKIE {
      TextAt(s, at + 1, text);
    } else {
      LongTextTrip(s, at, text, if |text| < 0x10000 then 2 else 4);
    }
  }

  lemma TextAt(s: Str, at: nat, text: Str)
    requires At(s, at, text)
    ensures ReadText(s, at, |text|) == Read(Text(text), at + |text|)
  {
  }

  lemma LongTextTrip(s: Str, at: nat, text: Str, w: nat)
    requires (w == 2 && |text| < 0x10000) || (w == 4 && |text| < UINT32_SPAN)
    requires at < |s| && s[at] == Combine(TYPE_LONG_STRING, w)
    requires At(s, at + 1, Le(|text|, w)) && At(s, at + 1 + w, text)
    ensures Decode(s, at) == Got(Text(text), at + 1 + w + |text|)
  {
    LengthTrip(s, at + 1, |text|, w);
    TextAt(s, at + 1 + w, text);
  }

  lemma LengthTrip(s: Str, at: nat, n: nat, w: nat)
    requires (w == 2 && n < 0x10000) || (w == 4 && n < UINT32_SPAN)
    requires At(s, at, Le(n, w))
    ensures ReadLength(s, at, w) == Read(n, at + w)
  {
    var t := Le(n, w);
    if w == 2 {
      Le16RoundTrip(n);
    } else {
      Le32RoundTrip(n);
    }
  }

  lemma ScalarTrip(s: Str, at: nat, v: Value)
    requires Sendable(v) && !v.Table? && At(s, at, Encode(v))
    ensures Decode(s, at) == Got(v, at + |Encode(v)|)
  {
    if v.Text? {
      TextTrip(s, at, v.s);
    } else if v.Int? {
      IntTrip(s, at, v.n);
    } else {
      var t := Encode(v);
      AtHead(s, at, t);
      if v.Double? || v.Pointer? {
        assert t[1..] == v.bits;
      }
    }
  }

  /** Only nil starts with the sentinel. */
  lemma HeadByte(v: Value)
    requires Sendable(v)
    ensures |Encode(v)| > 0
    ensures Encode(v)[0] % 8 == TYPE_NIL <==> v.Nil?
  {
  }

  lemma HeaderTrip(s: Str, at: nat, n: nat)
    requires n < INT32_SPAN && At(s, at, TableHeader(n))
    ensures s[at] % 8 == TYPE_TABLE
    ensures var head: int := s[at];
            ReadArraySize(s, at + 1, head / 8) == Read(n, at + |TableHeader(n)|)
  {
    var t := TableHeader(n);
    AtHead(s, at, t);
    if n >= MAX_COOKIE - 1 {
      assert t[1..] == EncodeInt(n);
      IntTrip(s, at + 1, n);
    }
  }

  // ----- Round trip -----------------------------------------------------------------------------------

  /** Wherever the packed bytes of a value stand, unpacking there yields the value and stops right
      after them, whatever follows. */
  lemma {:induction false} RoundTrip(s: Str, at: nat, v: Value)
    requires Sendable(v) && At(s, at, Encode(v))
    ensures Decode(s, at) == Got(Normal(v), at + |Encode(v)|)
    decreases v, 1
  {
    if v.Table? {
      var n, first := |v.items|, at + |TableHeader(|v.items|)|;
      TableLayout(s, at, v);
      HeaderTrip(s, at, n);
      TableTrip(s, at, first, v.items, v.entries);
      assert Normal(v) == Table(NormalItems(v.items), NormalEntries(v.entries, n));
    } else {
      ScalarTrip(s, at, v);
    }
  }

  lemma {:induction false} TableTrip(s: Str, at: nat, first: nat, items: seq<Value>,
                                     entries: seq<(Value, Value)>)
    requires AllSendable(items) && EntriesSendable(entries, |items|)
    requires at < first <= |s| && s[at] % 8 == TYPE_TABLE
    requires ReadArraySize(s, at + 1, s[at] / 8) == Read(|items|, first)
    requires At(s, first, EncodeItems(items))
    requires At(s, first + |EncodeItems(items)|, EncodeEntries(entries, |items|) + [0])
    ensures
      var mid := first + |EncodeItems(items)|;
      Decode(s, at) == Got(Table(NormalItems(items), NormalEntries(entries, |items|)),
                           mid + |EncodeEntries(entries, |items|)| + 1)
    decreases Table(items, entries), 0
  {
    var mid := first + |EncodeItems(items)|;
    ItemsTrip(s, first, items);
    EntriesTrip(s, mid, entries, |items|);
    TableAssembled(s, at, first, NormalItems(items), mid, NormalEntries(entries, |items|),
                   mid + |EncodeEntries(entries, |items|)| + 1);
  }

  lemma TableLayout(s: Str, at: nat, v: Value)
    requires v.Table? && At(s, at, Encode(v))
    ensures
      var n := |v.items|;
      var first := at + |TableHeader(n)|;
      var mid := first + |EncodeItems(v.items)|;
      && At(s, at, TableHeader(n)) && At(s, first, EncodeItems(v.items))
      && At(s, mid, EncodeEntries(v.entries, n) + [0])
      && at + |Encode(v)| == mid + |EncodeEntries(v.entries, n)| + 1
  {
    var a, b, c := TableHeader(|v.items|), EncodeItems(v.items), EncodeEntries(v.entries, |v.items|);
    assert Encode(v) == a + b + c + [0] by { TableEncoding(v); }
    Layout(s, at, a, b, c);
  }

  lemma TableEncoding(v: Value)
    requires v.Table?
    ensures Encode(v)
            == TableHeader(|v.items|) + EncodeItems(v.items) + EncodeEntries(v.entries, |v.items|) + [0]
  {
  }

  lemma Layout(s: Str, at: nat, a: Str, b: Str, c: Str)
    requires At(s, at, a + b + c + [0])
    ensures At(s, at, a) && At(s, at + |a|, b) && At(s, at + |a| + |b|, c + [0])
    ensures at + |a + b + c + [0]| == at + |a| + |b| + |c| + 1
  {
    assert a + b + c + [0] == a + (b + (c + [0]));
    AtSplit(s, at, a, b + (c + [0]));
    AtSplit(s, at + |a|, b, c + [0]);
  }

  lemma TableAssembled(s: Str, at: nat, first: nat, items: seq<Value>, mid: nat,
                       entries: seq<(Value, Value)>, end: nat)
    requires at < |s| && first <= |s| && mid <= |s| && s[at] % 8 == TYPE_TABLE
    requires ReadArraySize(s, at + 1, s[at] / 8) == Read(|items|, first)
    requires DecodeItems(s, first, |items|) == Got(items, mid)
    requires DecodeEntries(s, mid) == Got(entries, end)
    ensures Decode(s, at) == Got(Table(items, entries), end)
  {
    assert DecodeTable(s, first, |items|) == Got(Table(items, entries), end);
  }

  lemma {:induction false} ItemsTrip(s: Str, at: nat, items: seq<Value>)
    requires AllSendable(items) && At(s, at, EncodeItems(items))
    ensures DecodeItems(s, at, |items|) == Got(NormalItems(items), at + |EncodeItems(items)|)
    decreases items
  {
    if items != [] {
      var rest := items[1..];
      var mid := at + |Encode(items[0])|;
      FirstItem(items);
      AtSplit(s, at, Encode(items[0]), EncodeItems(rest));
      RoundTrip(s, at, items[0]);
      ItemsTrip(s, mid, rest);
      ItemsAssembled(s, at, Normal(items[0]), mid, NormalItems(rest), mid + |EncodeItems(rest)|);
    }
  }

  lemma ItemsAssembled(s: Str, at: nat, v: Value, mid: nat, rest: seq<Value>, end: nat)
    requires at <= |s| && mid <= |s| && Decode(s, at) == Got(v, mid)
    requires DecodeItems(s, mid, |rest|) == Got(rest, end)
    ensures DecodeItems(s, at, |rest| + 1) == Got([v] + rest, end)
  {
  }

  lemma FirstItem(items: seq<Value>)
    requires items != []
    ensures EncodeItems(items) == Encode(items[0]) + EncodeItems(items[1..])
    ensures NormalItems(items) == [Normal(items[0])] + NormalItems(items[1..])
  {
  }

  lemma {:induction false} EntriesTrip(s: Str, at: nat, entries: seq<(Value, Value)>, n: nat)
    requires EntriesSendable(entries, n)
    requires At(s, at, EncodeEntries(entries, n) + [0])
    ensures DecodeEntries(s, at)
            == Got(NormalEntries(entries, n), at + |EncodeEntries(entries, n)| + 1)
    decreases entries, 1
  {
    if entries == [] {
      EntriesEnd(s, at, entries, n);
    } else if InArray(entries[0].0, n) {
      SkippedTrip(s, at, entries, n);
    } else {
      WrittenTrip(s, at, entries, n);
    }
  }

  /** An entry of the array part is not there. */
  lemma {:induction false} SkippedTrip(s: Str, at: nat, entries: seq<(Value, Value)>, n: nat)
    requires EntriesSendable(entries, n) && entries != [] && InArray(entries[0].0, n)
    requires At(s, at, EncodeEntries(entries, n) + [0])
    ensures DecodeEntries(s, at)
            == Got(NormalEntries(entries, n), at + |EncodeEntries(entries, n)| + 1)
    decreases entries, 0
  {
    SkippedEntry(entries, n);
    EntriesTrip(s, at, entries[1..], n);
  }

  /** A written entry in front of the others. */
  lemma {:induction false} WrittenTrip(s: Str, at: nat, entries: seq<(Value, Value)>, n: nat)
    requires EntriesSendable(entries, n) && entries != [] && !InArray(entries[0].0, n)
    requires At(s, at, EncodeEntries(entries, n) + [0])
    ensures DecodeEntries(s, at)
            == Got(NormalEntries(entries, n), at + |EncodeEntries(entries, n)| + 1)
    decreases entries, 0
  {
    var key, value, rest := entries[0].0, entries[0].1, entries[1..];
    var mid := at + |Encode(key)|;
    var next := mid + |Encode(value)|;
    WrittenEntry(entries, n);
    EntriesLayout(s, at, Encode(key), Encode(value), EncodeEntries(rest, n));
    EntryTrip(s, at, entries[0], mid, next);
    EntriesTrip(s, next, rest, n);
    EntriesAssembled(s, at, Normal(key), mid, Normal(value), next, NormalEntries(rest, n),
                     next + |EncodeEntries(rest, n)| + 1);
  }

  lemma EntriesLayout(s: Str, at: nat, key: Str, value: Str, rest: Str)
    requires At(s, at, key + value + rest + [0])
    ensures At(s, at, key) && At(s, at + |key|, value) && At(s, at + |key| + |value|, rest + [0])
  {
    AtSplitLast(s, at, key + value, rest);
    AtSplit(s, at, key, value);
  }

  lemma EntriesAssembled(s: Str, at: nat, key: Value, mid: nat, value: Value, next: nat,
                         rest: seq<(Value, Value)>, end: nat)
    requires at < |s| && s[at] % 8 != TYPE_NIL && mid <= |s| && next <= |s|
    requires !BadKey(key) && Decode(s, at) == Got(key, mid) && Decode(s, mid) == Got(value, next)
    requires DecodeEntries(s, next) == Got(rest, end)
    ensures DecodeEntries(s, at) == Got([(key, value)] + rest, end)
  {
  }

  lemma EntriesEnd(s: Str, at: nat, entries: seq<(Value, Value)>, n: nat)
    requires entries == [] && At(s, at, EncodeEntries(entries, n) + [0])
    ensures DecodeEntries(s, at)
            == Got(NormalEntries(entries, n), at + |EncodeEntries(entries, n)| + 1)
  {
    var t := EncodeEntries(entries, n) + [0];
    assert s[at + 0] == t[0] == 0;
  }

  lemma SkippedEntry(entries: seq<(Value, Value)>, n: nat)
    requires entries != [] && InArray(entries[0].0, n)
    ensures EncodeEntries(entries, n) == EncodeEntries(entries[1..], n)
    ensures NormalEntries(entries, n) == NormalEntries(entries[1..], n)
  {
    assert EncodeEntry(entries[0], n) == [] && NormalEntry(entries[0], n) == [];
  }

  lemma WrittenEntry(entries: seq<(Value, Value)>, n: nat)
    requires entries != [] && !InArray(entries[0].0, n)
    ensures EncodeEntries(entries, n)
            == Encode(entries[0].0) + Encode(entries[0].1) + EncodeEntries(entries[1..], n)
    ensures NormalEntries(entries, n)
            == [(Normal(entries[0].0), Normal(entries[0].1))] + NormalEntries(entries[1..], n)
  {
  }

  lemma {:induction false} EntryTrip(s: Str, at: nat, entry: (Value, Value), mid: nat, next: nat)
    requires !BadKey(entry.0) && Sendable(entry.0) && Sendable(entry.1)
    requires At(s, at, Encode(entry.0)) && mid == at + |Encode(entry.0)|
    requires At(s, mid, Encode(entry.1)) && next == mid + |Encode(entry.1)|
    ensures at < |s| && s[at] % 8 != TYPE_NIL && !BadKey(Normal(entry.0))
    ensures Decode(s, at) == Got(Normal(entry.0), mid) && Decode(s, mid) == Got(Normal(entry.1), next)
    decreases entry
  {
    KeyTrip(s, at, entry.0, mid);
    RoundTrip(s, mid, entry.1);
  }

  lemma {:induction false} KeyTrip(s: Str, at: nat, key: Value, mid: nat)
    requires Sendable(key) && !BadKey(key) && At(s, at, Encode(key)) && mid == at + |Encode(key)|
    ensures at < |s| && s[at] % 8 != TYPE_NIL && !BadKey(Normal(key)) && Decode(s, at) == Got(Normal(key), mid)
    decreases key, 2
  {
    HeadByte(key);
    AtHead(s, at, Encode(key));
    RoundTrip(s, at, key);
  }

  lemma ListAssembled(s: Str, at: nat, v: Value, mid: nat, rest: seq<Value>, end: nat)
    requires at < mid <= |s| && Decode(s, at) == Got(v, mid) && DecodeAll(s, mid) == Got(rest, end)
    ensures DecodeAll(s, at) == Got([v] + rest, end)
  {
  }

  lemma NotEmpty(v: Value)
    requires Sendable(v)
    ensures |Encode(v)| > 0
  {
    HeadByte(v);
  }

  /** A packed argument list unpacks to the same values, same number and order. */
  lemma {:induction false} ListRoundTrip(s: Str, at: nat, vs: seq<Value>)
    requires AllSendable(vs)
    requires At(s, at, EncodeItems(vs)) && at + |EncodeItems(vs)| == |s|
    ensures DecodeAll(s, at) == Got(NormalItems(vs), |s|)
    decreases |vs|
  {
    if vs != [] {
      var first, rest := Encode(vs[0]), EncodeItems(vs[1..]);
      FirstItem(vs);
      AtSplit(s, at, first, rest);
      NotEmpty(vs[0]);
      RoundTrip(s, at, vs[0]);
      ListRoundTrip(s, at + |first|, vs[1..]);
      ListAssembled(s, at, Normal(vs[0]), at + |first|, NormalItems(vs[1..]), |s|);
    }
  }

  /** Packed values delimit themselves: two different values never share a beginning. */
  lemma SelfDelimiting(v: Value, w: Value, a: Str, b: Str)
    requires Sendable(v) && Sendable(w) && Encode(v) + a == Encode(w) + b
    ensures Normal(v) == Normal(w) && a == b
  {
    var s := Encode(v) + a;
    assert s[0..|Encode(v)|] == Encode(v);
    assert s[0..|Encode(w)|] == Encode(w);
    RoundTrip(s, 0, v);
    RoundTrip(s, 0, w);
    assert a == s[|Encode(v)|..] && b == s[|Encode(w)|..];
  }

  lemma ListsInjective(vs: seq<Value>, ws: seq<Value>)
    requires AllSendable(vs)
    requires AllSendable(ws)
    requires EncodeItems(vs) == EncodeItems(ws)
    ensures NormalItems(vs) == NormalItems(ws)
  {
    var s := EncodeItems(vs);
    assert s[0..|s|] == s;
    ListRoundTrip(s, 0, vs);
    ListRoundTrip(s, 0, ws);
  }

  /** Length fields have 32 bits: a string survives if and only if it is shorter than 2^32 bytes. */
  lemma TextRoundTripIff(text: Str)
    ensures Decode(EncodeText(text), 0) == Got(Text(text), |EncodeText(text)|)
            <==> |text| < UINT32_SPAN
  {
    var s := EncodeText(text);
    assert s[0..|s|] == s;
    if |text| < UINT32_SPAN {
      TextTrip(s, 0, text);
    } else {
      AtHead(s, 0, s);
      assert s[1..] == Le(|text|, 4) + text;
      AtSplit(s, 1, Le(|text|, 4), text);
      Pow256Values();
      LeRoundTrip(|text|, 4);
      var n := |text| % UINT32_SPAN;
      assert Decode(s, 0) == Got(Text(s[5..5 + n]), 5 + n);
    }
  }

  // ----- When packing fails ---------------------------------------------------------------------------

  /** No unsupported value is among the written parts. */
  predicate Supported(v: Value)
    decreases v
  {
    match v
    case Table(items, entries) =>
      && (forall i :: 0 <= i < |items| ==> Supported(items[i]))
      && (forall i :: 0 <= i < |entries| ==> EntrySupported(entries[i], |items|))
    case Unsupported => false
    case _ => true
  }

  predicate EntrySupported(entry: (Value, Value), n: nat)
    decreases entry
  {
    InArray(entry.0, n) || (Supported(entry.0) && Supported(entry.1))
  }

  /** Nesting of tables among the written parts; 0 for anything that is not a table. */
  function Depth(v: Value): nat
    decreases v
  {
    if v.Table? then 1 + Max(DepthItems(v.items), DepthEntries(v.entries, |v.items|)) else 0
  }

  function DepthItems(items: seq<Value>): nat
    decreases items
  {
    if items == [] then 0 else Max(Depth(items[0]), DepthItems(items[1..]))
  }

  function DepthEntries(entries: seq<(Value, Value)>, n: nat): nat
    decreases entries
  {
    if entries == [] then 0 else Max(DepthEntry(entries[0], n), DepthEntries(entries[1..], n))
  }

  function DepthEntry(entry: (Value, Value), n: nat): nat
    decreases entry
  {
    if InArray(entry.0, n) then 0 else Max(Depth(entry.0), Depth(entry.1))
  }

  predicate Shallow(depth: nat, nesting: nat) {
    nesting > 0 ==> depth + nesting < MAX_DEPTH
  }

  /** Packing fails on exactly the trees that hold an unsupported value or nest tables more than 31
      deep. */
  lemma {:induction false} PacksIff(v: Value, depth: nat)
    ensures Packs(v, depth) <==> Supported(v) && Shallow(depth, Depth(v))
    decreases v
  {
    if v.Table? {
      ItemsPackIff(v.items, depth + 1);
      EntriesPackIff(v.entries, |v.items|, depth + 1);
    }
  }

  /** An argument packs if and only if it holds nothing unsupported and nests at most 31 tables. */
  lemma ArgumentPacksIff(v: Value)
    ensures Packs(v, 0) <==> Supported(v) && Depth(v) <= 31
  {
    PacksIff(v, 0);
  }

  lemma {:induction false} ItemsPackIff(items: seq<Value>, depth: nat)
    ensures (forall i :: 0 <= i < |items| ==> Packs(items[i], depth))
            <==> (forall i :: 0 <= i < |items| ==> Supported(items[i]))
                 && Shallow(depth, DepthItems(items))
    decreases items
  {
    if items != [] {
      var rest := items[1..];
      PacksIff(items[0], depth);
      ItemsPackIff(rest, depth);
      assert items == [items[0]] + rest;
    }
  }

  lemma {:induction false} EntriesPackIff(entries: seq<(Value, Value)>, n: nat, depth: nat)
    ensures (forall i :: 0 <= i < |entries| ==> EntryPacks(entries[i], n, depth))
            <==> (forall i :: 0 <= i < |entries| ==> EntrySupported(entries[i], n))
                 && Shallow(depth, DepthEntries(entries, n))
    decreases entries
  {
    if entries != [] {
      var rest := entries[1..];
      EntryPacksIff(entries[0], n, depth);
      EntriesPackIff(rest, n, depth);
      assert entries == [entries[0]] + rest;
    }
  }

  lemma {:induction false} EntryPacksIff(entry: (Value, Value), n: nat, depth: nat)
    ensures EntryPacks(entry, n, depth)
            <==> EntrySupported(entry, n) && Shallow(depth, DepthEntry(entry, n))
    decreases entry
  {
    PacksIff(entry.0, depth);
    PacksIff(entry.1, depth);
  }
}
