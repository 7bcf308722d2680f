/** The binary format of the Lua value serializer (src/lua_seri.cpp): what packing writes for a value
    and what unpacking reads from arbitrary bytes.  Doubles and pointers are opaque 8-byte values;
    numbers are written in the byte order of a little-endian machine. */
module Seri {
  import opened Numbers
  import opened Bytes

  const TYPE_NIL: int := 0
  const TYPE_BOOLEAN: int := 1
  const TYPE_NUMBER: int := 2
  const TYPE_USERDATA: int := 3
  const TYPE_SHORT_STRING: int := 4
  const TYPE_LONG_STRING: int := 5
  const TYPE_TABLE: int := 6

  const NUMBER_ZERO: int := 0
  const NUMBER_BYTE: int := 1
  const NUMBER_WORD: int := 2
  const NUMBER_DWORD: int := 4
  const NUMBER_QWORD: int := 6
  const NUMBER_DOUBLE: int := 8

  const MAX_COOKIE: int := 32
  const MAX_DEPTH: int := 32

  const INT64_SPAN: int := 0x8000_0000_0000_0000

  /** A Lua value.  A table is what its array part holds at 1..n (n is its raw length) and the
      entries a traversal visits, in order. */
  datatype Value =
    | Nil
    | Bool(b: bool)
    | Int(n: int)
    | Double(bits: Str)
    | Pointer(bits: Str)
    | Text(s: Str)
    | Table(items: seq<Value>, entries: seq<(Value, Value)>)
    | Unsupported      // functions, full userdata, threads

  function Combine(t: int, v: int): (h: byte)
    requires 0 <= t < 8 && 0 <= v < 32
    ensures h % 8 == t && h / 8 == v
  {
    t + 8 * v
  }

  /** Exponent all ones and a non-zero mantissa. */
  predicate IsNaN(bits: Str) {
    && |bits| == 8 && bits[7] % 128 == 127 && bits[6] / 16 == 15
    && !(bits[6] % 16 == 0 && forall i :: 0 <= i < 6 ==> bits[i] == 0)
  }

  /** A value no table can have as key. */
  predicate BadKey(v: Value) {
    v.Nil? || (v.Double? && IsNaN(v.bits))
  }

  // ----- Packing --------------------------------------------------------------------------------------

  function EncodeInt(n: int): Str {
    if n == 0 then [Combine(TYPE_NUMBER, NUMBER_ZERO)]
    else if n != Int32(n) then [Combine(TYPE_NUMBER, NUMBER_QWORD)] + Le(n % UINT64_SPAN, 8)
    else if n < 0 then [Combine(TYPE_NUMBER, NUMBER_DWORD)] + Le(Uint32(n), 4)
    else if n < 0x100 then [Combine(TYPE_NUMBER, NUMBER_BYTE)] + [n]
    else if n < 0x10000 then [Combine(TYPE_NUMBER, NUMBER_WORD)] + Le(n, 2)
    else [Combine(TYPE_NUMBER, NUMBER_DWORD)] + Le(n, 4)
  }

  /** The length field of a long string is 32 bits wide: a longer length is cut. */
  function TextHeader(n: nat): Str {
    if n < MAX_COOKIE then [Combine(TYPE_SHORT_STRING, n)]
    else if n < 0x10000 then [Combine(TYPE_LONG_STRING, 2)] + Le(n, 2)
    else [Combine(TYPE_LONG_STRING, 4)] + Le(n, 4)
  }

  function EncodeText(s: Str): Str {
    TextHeader(|s|) + s
  }

  function TableHeader(n: nat): Str {
    if n >= MAX_COOKIE - 1 then [Combine(TYPE_TABLE, MAX_COOKIE - 1)] + EncodeInt(n)
    else [Combine(TYPE_TABLE, n)]
  }

  /** An entry whose key lies in the array part is not written again. */
  predicate InArray(key: Value, n: nat) {
    key.Int? && 0 < key.n <= n
  }

  function Encode(v: Value): Str
    decreases v
  {
    match v
    case Nil => [Combine(TYPE_NIL, 0)]
    case Bool(b) => [Combine(TYPE_BOOLEAN, if b then 1 else 0)]
    case Int(n) => EncodeInt(n)
    case Double(bits) => [Combine(TYPE_NUMBER, NUMBER_DOUBLE)] + bits
    case Pointer(bits) => [Combine(TYPE_USERDATA, 0)] + bits
    case Text(s) => EncodeText(s)
    case Table(items, entries) =>
      TableHeader(|items|) + EncodeItems(items) + EncodeEntries(entries, |items|)
      + [Combine(TYPE_NIL, 0)]
    case Unsupported => []
  }

  function EncodeItems(items: seq<Value>): Str
    decreases items
  {
    if items == [] then [] else Encode(items[0]) + EncodeItems(items[1..])
  }

  function EncodeEntries(entries: seq<(Value, Value)>, n: nat): Str
    decreases entries
  {
    if entries == [] then []
    else EncodeEntry(entries[0], n) + EncodeEntries(entries[1..], n)
  }

  function EncodeEntry(entry: (Value, Value), n: nat): Str
    decreases entry
  {
    if InArray(entry.0, n) then [] else Encode(entry.0) + Encode(entry.1)
  }

  /** Packing a value at some depth succeeds: a table is refused at depth 32, and so is a value of an
      unsupported type wherever it would be written. */
  predicate Packs(v: Value, depth: nat)
    decreases v
  {
    match v
    case Table(items, entries) =>
      && depth + 1 < MAX_DEPTH
      && (forall i :: 0 <= i < |items| ==> Packs(items[i], depth + 1))
      && (forall i :: 0 <= i < |entries| ==> EntryPacks(entries[i], |items|, depth + 1))
    case Unsupported => false
    case _ => true
  }

  predicate EntryPacks(entry: (Value, Value), n: nat, depth: nat)
    decreases entry
  {
    InArray(entry.0, n) || (Packs(entry.0, depth) && Packs(entry.1, depth))
  }

  /** What is written before packing a value fails, or the whole encoding when it does not. */
  function Written(v: Value, depth: nat): Str
    decreases v
  {
    if Packs(v, depth) then Encode(v)
    else if v.Table? && depth + 1 < MAX_DEPTH then
      TableHeader(|v.items|) + WrittenItems(v.items, depth + 1)
      + if AllPack(v.items, depth + 1) then WrittenEntries(v.entries, |v.items|, depth + 1) else []
    else []
  }

  predicate AllPack(items: seq<Value>, depth: nat)
    decreases items
  {
    forall i :: 0 <= i < |items| ==> Packs(items[i], depth)
  }

  function WrittenItems(items: seq<Value>, depth: nat): Str
    decreases items
  {
    if items == [] then []
    else if Packs(items[0], depth) then Encode(items[0]) + WrittenItems(items[1..], depth)
    else Written(items[0], depth)
  }

  function WrittenEntries(entries: seq<(Value, Value)>, n: nat, depth: nat): Str
    decreases entries
  {
    if entries == [] then []
    else if EntryPacks(entries[0], n, depth)
    then EncodeEntry(entries[0], n) + WrittenEntries(entries[1..], n, depth)
    else WrittenEntry(entries[0], depth)
  }

  /** The key goes first. */
  function WrittenEntry(entry: (Value, Value), depth: nat): Str
    decreases entry
  {
    Written(entry.0, depth) + if Packs(entry.0, depth) then Written(entry.1, depth) else []
  }

  // ----- Unpacking ------------------------------------------------------------------------------------

  /** The bytes read at `at`, if there are that many: ReadBlock::read. */
  predicate Has(s: Str, at: nat, n: nat) {
    at + n <= |s|
  }

  function Int64(n: nat): int {
    var u := n % UINT64_SPAN;
    if u < INT64_SPAN then u else u - UINT64_SPAN
  }

  /** The width of an integer with a given cookie; other cookies read nothing. */
  function Width(cookie: int): (w: nat)
    ensures w <= 8
  {
    if cookie == NUMBER_BYTE then 1
    else if cookie == NUMBER_WORD then 2
    else if cookie == NUMBER_DWORD then 4
    else if cookie == NUMBER_QWORD then 8
    else 0
  }

  /** A payload and the position after it. */
  datatype Read<+T> = Read(v: T, end: nat)

  /** An integer; a truncated one reads as 0 and consumes nothing. */
  function ReadInt(s: Str, at: nat, cookie: int): (r: Read<int>)
    requires at <= |s|
    ensures at <= r.end <= |s|
  {
    var w := Width(cookie);
    if !Has(s, at, w) then Read(0, at)
    else
      var u := FromLe(s[at..at + w]);
      Read(if w == 4 then Int32(u) else if w == 8 then Int64(u) else u, at + w)
  }

  /** Eight raw bytes, all zero when truncated. */
  function ReadBits(s: Str, at: nat): (r: Read<Str>)
    requires at <= |s|
    ensures at <= r.end <= |s|
  {
    if Has(s, at, 8) then Read(s[at..at + 8], at + 8) else Read([0, 0, 0, 0, 0, 0, 0, 0], at)
  }

  /** A string of known length, nil when truncated. */
  function ReadText(s: Str, at: nat, n: nat): (r: Read<Value>)
    requires at <= |s|
    ensures at <= r.end <= |s|
  {
    if Has(s, at, n) then Read(Text(s[at..at + n]), at + n) else Read(Nil, at)
  }

  /** The length of a long string, 0 when truncated. */
  function ReadLength(s: Str, at: nat, cookie: int): (r: Read<nat>)
    requires at <= |s|
    ensures at <= r.end <= |s|
  {
    var w := if cookie == 2 then 2 else 4;
    if Has(s, at, w) then Read(FromLe(s[at..at + w]), at + w) else Read(0, at)
  }

  /** Everything but a table, after its header byte. */
  function ReadScalar(s: Str, at: nat, kind: int, cookie: int): (r: Read<Value>)
    requires at <= |s| && 0 <= cookie < 32
    ensures at <= r.end <= |s|
  {
    if kind == TYPE_BOOLEAN then Read(Bool(cookie != 0), at)
    else if kind == TYPE_NUMBER then
      if cookie == NUMBER_DOUBLE then
        var r := ReadBits(s, at); Read(Double(r.v), r.end)
      else
        var r := ReadInt(s, at, cookie); Read(Int(r.v), r.end)
    else if kind == TYPE_USERDATA then
      var r := ReadBits(s, at); Read(Pointer(r.v), r.end)
    else if kind == TYPE_SHORT_STRING then ReadText(s, at, cookie)
    else if kind == TYPE_LONG_STRING then
      var n := ReadLength(s, at, cookie); ReadText(s, n.end, n.v)
    else Read(Nil, at)
  }

  /** The size of a table's array part, after its header byte; -1 and below mean no items. */
  function ReadArraySize(s: Str, at: nat, cookie: int): (r: Read<int>)
    requires at <= |s|
    ensures at <= r.end <= |s|
  {
    if cookie != MAX_COOKIE - 1 || at == |s| then Read(cookie, at)
    else
      var kind: int := s[at];
      var r := ReadInt(s, at + 1, kind / 8);
      Read(Int32(r.v), r.end)
  }

  /** Error: a table entry has nil or NaN as key. */
  datatype Outcome<+T> = Got(v: T, end: nat) | Error

  /** One value; at the end of the bytes it is nil. */
  function Decode(s: Str, at: nat): (r: Outcome<Value>)
    requires at <= |s|
    ensures r.Got? ==> at <= r.end <= |s| && (at < |s| ==> at < r.end)
    decreases |s| - at, 0
  {
    if at == |s| then Got(Nil, at)
    else
      var head: int := s[at];
      if head % 8 == TYPE_TABLE then
        var size := ReadArraySize(s, at + 1, head / 8);
        DecodeTable(s, size.end, if size.v < 0 then 0 else size.v)
      else
        var r := ReadScalar(s, at + 1, head % 8, head / 8);
        Got(r.v, r.end)
  }

  function DecodeTable(s: Str, at: nat, n: nat): (r: Outcome<Value>)
    requires at <= |s|
    ensures r.Got? ==> at <= r.end <= |s|
    decreases |s| - at, n + 2
  {
    match DecodeItems(s, at, n)
    case Error => Error
    case Got(items, mid) =>
      match DecodeEntries(s, mid)
      case Error => Error
      case Got(entries, end) => Got(Table(items, entries), end)
  }

  function DecodeItems(s: Str, at: nat, n: nat): (r: Outcome<seq<Value>>)
    requires at <= |s|
    ensures r.Got? ==> at <= r.end <= |s| && |r.v| == n
    decreases |s| - at, n + 1
  {
    if n == 0 then Got([], at)
    else
      match Decode(s, at)
      case Error => Error
      case Got(v, mid) =>
        match DecodeItems(s, mid, n - 1)
        case Error => Error
        case Got(rest, end) => Got([v] + rest, end)
  }

  /** Entries up to a nil header or the end of the bytes. */
  function DecodeEntries(s: Str, at: nat): (r: Outcome<seq<(Value, Value)>>)
    requires at <= |s|
    ensures r.Got? ==> at <= r.end <= |s|
    decreases |s| - at, 1
  {
    if at == |s| then Got([], at)
    else
      var head: int := s[at];
      if head % 8 == TYPE_NIL then Got([], at + 1)
      else
        match Decode(s, at)
        case Error => Error
        case Got(key, mid) =>
          match Decode(s, mid)
          case Error => Error
          case Got(value, next) =>
            if BadKey(key) then Error
            else
              match DecodeEntries(s, next)
              case Error => Error
              case Got(rest, end) => Got([(key, value)] + rest, end)
  }

  /** All values of a message: unpack_impl. */
  function DecodeAll(s: Str, at: nat): (r: Outcome<seq<Value>>)
    requires at <= |s|
    ensures r.Got? ==> r.end == |s|
    decreases |s| - at
  {
    if at == |s| then Got([], at)
    else
      match Decode(s, at)
      case Error => Error
      case Got(v, mid) =>
        match DecodeAll(s, mid)
        case Error => Error
        case Got(rest, end) => Got([v] + rest, end)
  }
}
