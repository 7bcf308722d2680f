/** The serializer itself (src/lua_seri.cpp): packing into the block list and unpacking with a read
    cursor, each proved against the format in module Seri. */
module Serializer {
  import opened Wrappers
  import opened Numbers
  import opened Bytes
  import opened Seri
  import opened SeriFormat
  import opened WriteBuffer

  // ----- Packing --------------------------------------------------------------------------------------

  method PackInt(wb: WriteBlock, n: int)
    requires wb.Valid()
    modifies wb.Repr
    ensures wb.Valid() && wb.contents == old(wb.contents) + EncodeInt(n)
    ensures -INT64_SPAN <= n < INT64_SPAN ==> IsInt(wb.contents[|old(wb.contents)|..], n)
    ensures fresh(wb.Repr - old(wb.Repr)) && old(wb.Repr) <= wb.Repr && wb.head == old(wb.head)
  {
    var t := IntBytes(n);
    wb.Push(t[..1]);
    wb.Push(t[1..]);
    Joined(old(wb.contents), t[..1], t[1..]);
    assert t[..1] + t[1..] == t;
    IntAppended(old(wb.contents), n);
  }

  lemma IntAppended(before: Str, n: int)
    ensures -INT64_SPAN <= n < INT64_SPAN ==> IsInt((before + EncodeInt(n))[|before|..], n)
  {
    assert (before + EncodeInt(n))[|before|..] == EncodeInt(n);
    if -INT64_SPAN <= n < INT64_SPAN {
      IntLayout(n);
      assert Encode(Int(n)) == EncodeInt(n);
    }
  }

  /** The header and the payload of the right size. */
  method IntBytes(n: int) returns (t: Str)
    ensures t == EncodeInt(n) && |t| >= 1
  {
    if n == 0 {
      t := [Combine(TYPE_NUMBER, NUMBER_ZERO)];
    } else if n != Int32(n) {
      t := [Combine(TYPE_NUMBER, NUMBER_QWORD)] + Le(n % UINT64_SPAN, 8);
    } else if n < 0 {
      t := [Combine(TYPE_NUMBER, NUMBER_DWORD)] + Le(Uint32(n), 4);
    } else if n < 0x100 {
      t := [Combine(TYPE_NUMBER, NUMBER_BYTE), n];
    } else if n < 0x10000 {
      t := [Combine(TYPE_NUMBER, NUMBER_WORD)] + Le(n, 2);
    } else {
      t := [Combine(TYPE_NUMBER, NUMBER_DWORD)] + Le(n, 4);
    }
  }

  method PackText(wb: WriteBlock, s: Str)
    requires wb.Valid()
    modifies wb.Repr
    ensures wb.Valid() && wb.contents == old(wb.contents) + EncodeText(s)
    ensures IsText(wb.contents[|old(wb.contents)|..], s)
    ensures fresh(wb.Repr - old(wb.Repr)) && old(wb.Repr) <= wb.Repr && wb.head == old(wb.head)
  {
    wb.Push(TextHeader(|s|));
    wb.Push(s);
    Joined(old(wb.contents), TextHeader(|s|), s);
    assert wb.contents[|old(wb.contents)|..] == EncodeText(s);
    TextLayout(s);
  }

  lemma LongHeader(before: Str, n: nat)
    requires n >= MAX_COOKIE - 1
    ensures before + [Combine(TYPE_TABLE, MAX_COOKIE - 1)] + EncodeInt(n) == before + TableHeader(n)
  {
    assert TableHeader(n) == [Combine(TYPE_TABLE, MAX_COOKIE - 1)] + EncodeInt(n);
  }

  method PackHeader(wb: WriteBlock, n: nat)
    requires wb.Valid()
    modifies wb.Repr
    ensures wb.Valid() && wb.contents == old(wb.contents) + TableHeader(n)
    ensures fresh(wb.Repr - old(wb.Repr)) && old(wb.Repr) <= wb.Repr && wb.head == old(wb.head)
  {
    if n >= MAX_COOKIE - 1 {
      wb.Push([Combine(TYPE_TABLE, MAX_COOKIE - 1)]);
      PackInt(wb, n);
      LongHeader(old(wb.contents), n);
    } else {
      wb.Push([Combine(TYPE_TABLE, n)]);
    }
  }

  /** pack_one; false when it raises an error. */
  method PackOne(wb: WriteBlock, v: Value, depth: nat) returns (ok: bool)
    requires wb.Valid()
    modifies wb.Repr
    ensures ok <==> Packs(v, depth)
    ensures wb.Valid() && wb.contents == old(wb.contents) + Written(v, depth)
    ensures ok ==> wb.contents == old(wb.contents) + Encode(v)
    ensures fresh(wb.Repr - old(wb.Repr)) && old(wb.Repr) <= wb.Repr && wb.head == old(wb.head)
    decreases v, 2
  {
    ok := true;
    match v
    case Nil => wb.Push([Combine(TYPE_NIL, 0)]);
    case Bool(b) => wb.Push([Combine(TYPE_BOOLEAN, if b then 1 else 0)]);
    case Int(n) => PackInt(wb, n);
    case Double(bits) => wb.Push([Combine(TYPE_NUMBER, NUMBER_DOUBLE)] + bits);
    case Pointer(bits) => wb.Push([Combine(TYPE_USERDATA, 0)] + bits);
    case Text(s) => PackText(wb, s);
    case Table(_, _) => ok := PackTable(wb, v, depth + 1);
    case Unsupported =>
      ok := false;
      assert old(wb.contents) + [] == wb.contents;
  }

  method PackTable(wb: WriteBlock, v: Value, depth: nat) returns (ok: bool)
    requires wb.Valid() && v.Table? && depth > 0
    modifies wb.Repr
    ensures ok <==> Packs(v, depth - 1)
    ensures wb.Valid() && wb.contents == old(wb.contents) + Written(v, depth - 1)
    ensures ok ==> wb.contents == old(wb.contents) + Encode(v)
    ensures fresh(wb.Repr - old(wb.Repr)) && old(wb.Repr) <= wb.Repr && wb.head == old(wb.head)
    decreases v, 1
  {
    if depth >= MAX_DEPTH {
      assert old(wb.contents) + [] == wb.contents;
      return false;
    }
    PackHeader(wb, |v.items|);
    ok := PackParts(wb, v, depth);
    TableBytes(old(wb.contents), v);
    if !ok {
      TableBroken(old(wb.contents), v, depth);
    }
  }

  /** The array part, the other entries and the closing nil of a table. */
  method PackParts(wb: WriteBlock, v: Value, depth: nat) returns (ok: bool)
    requires wb.Valid() && v.Table?
    modifies wb.Repr
    ensures ok <==> (forall i :: 0 <= i < |v.items| ==> Packs(v.items[i], depth))
                    && (forall i :: 0 <= i < |v.entries| ==> EntryPacks(v.entries[i], |v.items|, depth))
    ensures wb.Valid()
    ensures ok ==> wb.contents == old(wb.contents) + EncodeItems(v.items)
                                  + EncodeEntries(v.entries, |v.items|) + [Combine(TYPE_NIL, 0)]
    ensures !ok ==> wb.contents == old(wb.contents) + PartsWritten(v, depth)
    ensures fresh(wb.Repr - old(wb.Repr)) && old(wb.Repr) <= wb.Repr && wb.head == old(wb.head)
    decreases v, 0
  {
    ok := PackItems(wb, v.items, depth);
    if !ok {
      assert PartsWritten(v, depth) == WrittenItems(v.items, depth);
      return;
    }
    ok := PackEntries(wb, v.entries, |v.items|, depth);
    if !ok {
      AllWritten(v.items, depth);
      Joined(old(wb.contents), EncodeItems(v.items), WrittenEntries(v.entries, |v.items|, depth));
      return;
    }
    wb.Push([Combine(TYPE_NIL, 0)]);
  }

  /** What is written of the parts of a table that does not pack. */
  function PartsWritten(v: Value, depth: nat): Str
    requires v.Table?
  {
    WrittenItems(v.items, depth)
    + if AllPack(v.items, depth) then WrittenEntries(v.entries, |v.items|, depth) else []
  }

  lemma TableBroken(before: Str, v: Value, depth: nat)
    requires v.Table? && 0 < depth < MAX_DEPTH && !Packs(v, depth - 1)
    ensures before + TableHeader(|v.items|) + PartsWritten(v, depth) == before + Written(v, depth - 1)
  {
  }

  lemma {:induction false} AllWritten(items: seq<Value>, depth: nat)
    requires forall i :: 0 <= i < |items| ==> Packs(items[i], depth)
    ensures WrittenItems(items, depth) == EncodeItems(items)
    decreases |items|
  {
    if items != [] {
      AllWritten(items[1..], depth);
    }
  }

  lemma {:induction false} SomeWritten(items: seq<Value>, k: nat, depth: nat)
    requires k < |items| && !Packs(items[k], depth)
    requires forall i :: 0 <= i < k ==> Packs(items[i], depth)
    ensures WrittenItems(items, depth) == EncodeItems(items[..k]) + Written(items[k], depth)
    decreases k
  {
    if k > 0 {
      var rest := items[1..];
      SomeWritten(rest, k - 1, depth);
      assert items[..k][1..] == rest[..k - 1];
      assert EncodeItems(items[..k]) == Encode(items[0]) + EncodeItems(rest[..k - 1]);
      Joined(Encode(items[0]), EncodeItems(rest[..k - 1]), Written(items[k], depth));
    }
  }

  lemma {:induction false} AllEntriesWritten(entries: seq<(Value, Value)>, n: nat, depth: nat)
    requires forall i :: 0 <= i < |entries| ==> EntryPacks(entries[i], n, depth)
    ensures WrittenEntries(entries, n, depth) == EncodeEntries(entries, n)
    decreases |entries|
  {
    if entries != [] {
      AllEntriesWritten(entries[1..], n, depth);
    }
  }

  lemma {:induction false} SomeEntriesWritten(entries: seq<(Value, Value)>, k: nat, n: nat, depth: nat)
    requires k < |entries| && !EntryPacks(entries[k], n, depth)
    requires forall i :: 0 <= i < k ==> EntryPacks(entries[i], n, depth)
    ensures WrittenEntries(entries, n, depth)
            == EncodeEntries(entries[..k], n) + WrittenEntry(entries[k], depth)
    decreases k
  {
    if k > 0 {
      var rest := entries[1..];
      SomeEntriesWritten(rest, k - 1, n, depth);
      assert entries[..k][1..] == rest[..k - 1];
      assert EncodeEntries(entries[..k], n) == EncodeEntry(entries[0], n) + EncodeEntries(rest[..k - 1], n);
      Joined(EncodeEntry(entries[0], n), EncodeEntries(rest[..k - 1], n), WrittenEntry(entries[k], depth));
    }
  }

  lemma TableBytes(before: Str, v: Value)
    requires v.Table?
    ensures before + TableHeader(|v.items|) + EncodeItems(v.items)
            + EncodeEntries(v.entries, |v.items|) + [Combine(TYPE_NIL, 0)]
            == before + Encode(v)
  {
  }

  lemma {:induction false} EncodeItemsSnoc(items: seq<Value>, v: Value)
    ensures EncodeItems(items + [v]) == EncodeItems(items) + Encode(v)
    decreases |items|
  {
    if items == [] {
      assert [v][1..] == [];
    } else {
      assert (items + [v])[1..] == items[1..] + [v];
      EncodeItemsSnoc(items[1..], v);
    }
  }

  lemma {:induction false} EncodeEntriesSnoc(entries: seq<(Value, Value)>, e: (Value, Value), n: nat)
    ensures EncodeEntries(entries + [e], n) == EncodeEntries(entries, n) + EncodeEntry(e, n)
    decreases |entries|
  {
    if entries == [] {
      assert [e][1..] == [];
    } else {
      assert (entries + [e])[1..] == entries[1..] + [e];
      EncodeEntriesSnoc(entries[1..], e, n);
    }
  }

  lemma NextItem(before: Str, items: seq<Value>, i: nat)
    requires i < |items|
    ensures before + EncodeItems(items[..i]) + Encode(items[i])
            == before + EncodeItems(items[..i + 1])
  {
    EncodeItemsSnoc(items[..i], items[i]);
    assert items[..i + 1] == items[..i] + [items[i]];
  }

  lemma NextEntry(before: Str, entries: seq<(Value, Value)>, i: nat, n: nat)
    requires i < |entries|
    ensures before + EncodeEntries(entries[..i], n) + EncodeEntry(entries[i], n)
            == before + EncodeEntries(entries[..i + 1], n)
  {
    EncodeEntriesSnoc(entries[..i], entries[i], n);
    assert entries[..i + 1] == entries[..i] + [entries[i]];
  }

  method PackItems(wb: WriteBlock, items: seq<Value>, depth: nat) returns (ok: bool)
    requires wb.Valid()
    modifies wb.Repr
    ensures ok <==> forall i :: 0 <= i < |items| ==> Packs(items[i], depth)
    ensures wb.Valid() && wb.contents == old(wb.contents) + WrittenItems(items, depth)
    ensures ok ==> wb.contents == old(wb.contents) + EncodeItems(items)
    ensures fresh(wb.Repr - old(wb.Repr)) && old(wb.Repr) <= wb.Repr && wb.head == old(wb.head)
    decreases items, 0
  {
    for i := 0 to |items|
      invariant wb.Valid() && wb.contents == old(wb.contents) + EncodeItems(items[..i])
      invariant fresh(wb.Repr - old(wb.Repr)) && old(wb.Repr) <= wb.Repr && wb.head == old(wb.head)
      invariant forall j :: 0 <= j < i ==> Packs(items[j], depth)
    {
      ok := PackOne(wb, items[i], depth);
      if !ok {
        SomeWritten(items, i, depth);
        Joined(old(wb.contents), EncodeItems(items[..i]), Written(items[i], depth));
        return;
      }
      NextItem(old(wb.contents), items, i);
    }
    assert items[..|items|] == items;
    AllWritten(items, depth);
    return true;
  }

  method PackEntries(wb: WriteBlock, entries: seq<(Value, Value)>, n: nat, depth: nat)
    returns (ok: bool)
    requires wb.Valid()
    modifies wb.Repr
    ensures ok <==> forall i :: 0 <= i < |entries| ==> EntryPacks(entries[i], n, depth)
    ensures wb.Valid() && wb.contents == old(wb.contents) + WrittenEntries(entries, n, depth)
    ensures ok ==> wb.contents == old(wb.contents) + EncodeEntries(entries, n)
    ensures fresh(wb.Repr - old(wb.Repr)) && old(wb.Repr) <= wb.Repr && wb.head == old(wb.head)
    decreases entries, 0
  {
    for i := 0 to |entries|
      invariant wb.Valid() && wb.contents == old(wb.contents) + EncodeEntries(entries[..i], n)
      invariant fresh(wb.Repr - old(wb.Repr)) && old(wb.Repr) <= wb.Repr && wb.head == old(wb.head)
      invariant forall j :: 0 <= j < i ==> EntryPacks(entries[j], n, depth)
    {
      ok := PackEntry(wb, entries[i], n, depth);
      if !ok {
        SomeEntriesWritten(entries, i, n, depth);
        Joined(old(wb.contents), EncodeEntries(entries[..i], n), WrittenEntry(entries[i], depth));
        return;
      }
      NextEntry(old(wb.contents), entries, i, n);
    }
    assert entries[..|entries|] == entries;
    AllEntriesWritten(entries, n, depth);
    return true;
  }

  method PackEntry(wb: WriteBlock, entry: (Value, Value), n: nat, depth: nat) returns (ok: bool)
    requires wb.Valid()
    modifies wb.Repr
    ensures ok <==> EntryPacks(entry, n, depth)
    ensures wb.Valid() && (ok ==> wb.contents == old(wb.contents) + EncodeEntry(entry, n))
    ensures !ok ==> wb.contents == old(wb.contents) + WrittenEntry(entry, depth)
    ensures fresh(wb.Repr - old(wb.Repr)) && old(wb.Repr) <= wb.Repr && wb.head == old(wb.head)
    decreases entry, 0
  {
    if entry.0.Int? && entry.0.n > 0 && entry.0.n <= n {
      return true;
    }
    ok := PackOne(wb, entry.0, depth);
    if !ok {
      assert WrittenEntry(entry, depth) == Written(entry.0, depth);
      return;
    }
    ok := PackOne(wb, entry.1, depth);
    Joined(old(wb.contents), Written(entry.0, depth), Written(entry.1, depth));
  }

  lemma Joined(a: Str, b: Str, c: Str)
    ensures a + b + c == a + (b + c)
  {
  }

  /** luaseri_pack; None when an error is raised, which jumps past free_blocks.  `freed` are the heap
      blocks freed and `leaked` those still allocated afterwards: after a success all were freed once,
      after an error none was. */
  method Pack(args: seq<Value>) returns (r: Option<array<byte>>, freed: seq<Block>, ghost leaked: seq<Block>)
    ensures r.Some? <==> AllPack(args, 0)
    ensures r.Some? ==> r.value[..] == EncodeItems(args)
    ensures |freed| == if r.Some? then HeapBlocks(|EncodeItems(args)|) else 0
    ensures |leaked| == if r.Some? then 0 else HeapBlocks(|WrittenItems(args, 0)|)
    ensures Distinct(freed) && Distinct(leaked)
    ensures leaked != [] <==> !AllPack(args, 0) && |WrittenItems(args, 0)| > BLOCK_SIZE
  {
    var temp := new Block();
    var wb := new WriteBlock(temp);
    var ok := PackItems(wb, args, 0);
    assert [] + WrittenItems(args, 0) == WrittenItems(args, 0) && [] + EncodeItems(args) == EncodeItems(args);
    wb.BlockCount();
    if !ok {
      return None, [], wb.chain[1..];
    }
    var out := wb.Seri();
    freed := wb.FreeBlocks();
    return Some(out), freed, [];
  }

  /** Such a list of arguments: a string of 200 bytes and then a function. */
  lemma LeakExample(text: Str)
    requires |text| == 200
    ensures
      var args := [Text(text), Unsupported];
      !AllPack(args, 0) && HeapBlocks(|WrittenItems(args, 0)|) == 1
  {
    var args := [Text(text), Unsupported];
    assert !Packs(args[1], 0);
    SomeWritten(args, 1, 0);
    assert args[..1] == [Text(text)];
    assert EncodeItems([Text(text)]) == Encode(Text(text)) + EncodeItems([Text(text)][1..]);
    assert |Encode(Text(text))| == 203;
  }

  // ----- Unpacking ------------------------------------------------------------------------------------

  class ReadBlock {
    const buffer: Str
    var ptr: nat

    constructor (buffer: Str)
      ensures this.buffer == buffer && ptr == 0
    {
      this.buffer := buffer;
      ptr := 0;
    }

    ghost predicate Valid()
      reads this
    {
      ptr <= |buffer|
    }

    /** None is the null pointer: fewer than `n` bytes are left and nothing is consumed. */
    method Read(n: nat) returns (r: Option<Str>)
      requires Valid()
      modifies this
      ensures Valid()
      ensures r == if Has(buffer, old(ptr), n) then Some(buffer[old(ptr)..old(ptr) + n]) else None
      ensures ptr == if r.Some? then old(ptr) + n else old(ptr)
    {
      if ptr + n > |buffer| {
        return None;
      }
      r := Some(buffer[ptr..ptr + n]);
      ptr := ptr + n;
    }

    method Integer(cookie: int) returns (v: int)
      requires Valid()
      modifies this
      ensures Valid() && Seri.Read(v, ptr) == ReadInt(buffer, old(ptr), cookie)
    {
      if cookie == NUMBER_BYTE {
        var p := Read(1);
        v := if p.None? then 0 else FromLe(p.value);
      } else if cookie == NUMBER_WORD {
        var p := Read(2);
        v := if p.None? then 0 else FromLe(p.value);
      } else if cookie == NUMBER_DWORD {
        var p := Read(4);
        v := if p.None? then 0 else Int32(FromLe(p.value));
      } else if cookie == NUMBER_QWORD {
        var p := Read(8);
        v := if p.None? then 0 else Int64(FromLe(p.value));
      } else {
        assert buffer[ptr..ptr] == [];
        v := 0;
      }
    }

    /** rb_double and rb_pointer. */
    method Bits() returns (v: Str)
      requires Valid()
      modifies this
      ensures Valid() && Seri.Read(v, ptr) == ReadBits(buffer, old(ptr))
    {
      var p := Read(8);
      v := if p.None? then [0, 0, 0, 0, 0, 0, 0, 0] else p.value;
    }

    method ShortText(n: nat) returns (v: Value)
      requires Valid()
      modifies this
      ensures Valid() && Seri.Read(v, ptr) == ReadText(buffer, old(ptr), n)
    {
      var p := Read(n);
      v := if p.None? then Nil else Text(p.value);
    }

    method LongText(cookie: int) returns (v: Value)
      requires Valid()
      modifies this
      ensures Valid()
      ensures var n := ReadLength(buffer, old(ptr), cookie);
              Seri.Read(v, ptr) == ReadText(buffer, n.end, n.v)
    {
      var n := 0;
      if cookie == 2 {
        var p := Read(2);
        if p.Some? {
          n := FromLe(p.value);
        }
      } else {
        var p := Read(4);
        if p.Some? {
          n := FromLe(p.value);
        }
      }
      v := ShortText(n);
    }

    method ArraySize(cookie: int) returns (n: int)
      requires Valid() && 0 <= cookie < 32
      modifies this
      ensures Valid() && Seri.Read(n, ptr) == ReadArraySize(buffer, old(ptr), cookie)
    {
      n := cookie;
      if n == MAX_COOKIE - 1 {
        var st := Read(1);
        if st.Some? {
          var head: int := st.value[0];
          var size := Integer(head / 8);
          n := Int32(size);
        }
      }
    }

    /** unpack_one. */
    method One() returns (r: Option<Value>)
      requires Valid()
      modifies this
      ensures Valid() && old(ptr) <= ptr
      ensures Agrees(Decode(buffer, old(ptr)), r, ptr)
      decreases |buffer| - ptr, 0
    {
      var t := Read(1);
      if t.None? {
        return Some(Nil);
      }
      var head: int := t.value[0];
      var kind, cookie := head % 8, head / 8;
      if kind == TYPE_NIL {
        r := Some(Nil);
      } else if kind == TYPE_BOOLEAN {
        r := Some(Bool(cookie != 0));
      } else if kind == TYPE_NUMBER {
        if cookie == NUMBER_DOUBLE {
          var v := Bits();
          r := Some(Double(v));
        } else {
          var v := Integer(cookie);
          r := Some(Int(v));
        }
      } else if kind == TYPE_USERDATA {
        var v := Bits();
        r := Some(Pointer(v));
      } else if kind == TYPE_SHORT_STRING {
        var v := ShortText(cookie);
        r := Some(v);
      } else if kind == TYPE_LONG_STRING {
        var v := LongText(cookie);
        r := Some(v);
      } else if kind == TYPE_TABLE {
        var n := ArraySize(cookie);
        r := TableBody(n);
      } else {
        r := Some(Nil);
      }
    }

    /** The decoder that rb_table has inlined for keys, run after the header byte has been read: it
        yields what unpack_one would have from the header on. */
    method Key(kind: int, cookie: int) returns (r: Option<Value>)
      requires Valid() && 0 <= cookie < 32 && kind != TYPE_NIL
      requires ptr > 0 && buffer[ptr - 1] % 8 == kind && buffer[ptr - 1] / 8 == cookie
      modifies this
      ensures Valid() && old(ptr) <= ptr
      ensures Agrees(Decode(buffer, old(ptr) - 1), r, ptr)
      decreases |buffer| - ptr, 4
    {
      if kind == TYPE_BOOLEAN {
        r := Some(Bool(cookie != 0));
      } else if kind == TYPE_NUMBER {
        if cookie == NUMBER_DOUBLE {
          var v := Bits();
          r := Some(Double(v));
        } else {
          var v := Integer(cookie);
          r := Some(Int(v));
        }
      } else if kind == TYPE_SHORT_STRING {
        var v := ShortText(cookie);
        r := Some(v);
      } else if kind == TYPE_LONG_STRING {
        var v := LongText(cookie);
        r := Some(v);
      } else if kind == TYPE_USERDATA {
        var v := Bits();
        r := Some(Pointer(v));
      } else if kind == TYPE_TABLE {
        var n := ArraySize(cookie);
        r := TableBody(n);
      } else {
        r := Some(Nil);
      }
    }

    /** rb_table. */
    method TableBody(n: int) returns (r: Option<Value>)
      requires Valid()
      modifies this
      ensures Valid() && old(ptr) <= ptr
      ensures Agrees(DecodeTable(buffer, old(ptr), if n < 0 then 0 else n), r, ptr)
      decreases |buffer| - ptr, 3
    {
      var items := Items(if n < 0 then 0 else n);
      if items.None? {
        return None;
      }
      var entries := Entries();
      if entries.None? {
        return None;
      }
      return Some(Table(items.value, entries.value));
    }

    method Items(n: nat) returns (r: Option<seq<Value>>)
      requires Valid()
      modifies this
      ensures Valid() && old(ptr) <= ptr
      ensures Agrees(DecodeItems(buffer, old(ptr), n), r, ptr)
      decreases |buffer| - ptr, 2
    {
      var items := [];
      BeforeNothing(DecodeItems(buffer, ptr, n));
      for i := 0 to n
        invariant Valid() && old(ptr) <= ptr
        invariant DecodeItems(buffer, old(ptr), n) == Before(items, DecodeItems(buffer, ptr, n - i))
      {
        var v := One();
        if v.None? {
          return None;
        }
        BeforeNext(items, v.value, DecodeItems(buffer, ptr, n - i - 1));
        items := items + [v.value];
      }
      assert items + [] == items;
      return Some(items);
    }

    method Entries() returns (r: Option<seq<(Value, Value)>>)
      requires Valid()
      modifies this
      ensures Valid() && old(ptr) <= ptr
      ensures Agrees(DecodeEntries(buffer, old(ptr)), r, ptr)
      decreases |buffer| - ptr, 1
    {
      var entries := [];
      BeforeNothing(DecodeEntries(buffer, ptr));
      while true
        invariant Valid() && old(ptr) <= ptr
        invariant DecodeEntries(buffer, old(ptr)) == Before(entries, DecodeEntries(buffer, ptr))
        decreases |buffer| - ptr
      {
        var t := Read(1);
        if t.None? {
          break;
        }
        var head: int := t.value[0];
        if head % 8 == TYPE_NIL {
          assert entries + [] == entries;
          return Some(entries);
        }
        var key := Key(head % 8, head / 8);
        if key.None? {
          return None;
        }
        var value := One();
        if value.None? || BadKey(key.value) {
          return None;
        }
        BeforeNext(entries, (key.value, value.value), DecodeEntries(buffer, ptr));
        entries := entries + [(key.value, value.value)];
      }
      assert entries + [] == entries;
      return Some(entries);
    }
  }

  /** What a method returned and where its cursor stands is what the format says. */
  ghost predicate Agrees<T(!new)>(o: Outcome<T>, r: Option<T>, ptr: nat) {
    match o
    case Error => r.None?
    case Got(v, end) => r == Some(v) && ptr == end
  }

  ghost function Before<T>(xs: seq<T>, o: Outcome<seq<T>>): Outcome<seq<T>> {
    match o
    case Error => Error
    case Got(v, end) => Got(xs + v, end)
  }

  lemma BeforeNothing<T>(o: Outcome<seq<T>>)
    ensures Before([], o) == o
  {
    if o.Got? {
      assert [] + o.v == o.v;
    }
  }

  lemma BeforeNext<T>(xs: seq<T>, x: T, o: Outcome<seq<T>>)
    ensures o.Got? ==> Before(xs, Got([x] + o.v, o.end)) == Before(xs + [x], o)
  {
    if o.Got? {
      assert xs + ([x] + o.v) == xs + [x] + o.v;
    }
  }

  /** unpack_impl: all values of a message; None when an error is raised.  `owned` tells whether the
      message is a buffer to be freed here, `freed` whether it is: an error leaves it behind. */
  method Unpack(s: Str, owned: bool) returns (r: Option<seq<Value>>, freed: bool)
    ensures DecodeAll(s, 0).Error? <==> r.None?
    ensures r.Some? ==> r.value == DecodeAll(s, 0).v
    ensures freed <==> owned && !DecodeAll(s, 0).Error?
  {
    var rb := new ReadBlock(s);
    var values := [];
    BeforeNothing(DecodeAll(s, 0));
    while rb.ptr < |rb.buffer|
      invariant rb.Valid() && rb.buffer == s
      invariant DecodeAll(s, 0) == Before(values, DecodeAll(s, rb.ptr))
      decreases |s| - rb.ptr
    {
      var v := rb.One();
      if v.None? {
        return None, false;
      }
      BeforeNext(values, v.value, DecodeAll(s, rb.ptr));
      values := values + [v.value];
    }
    assert values + [] == values;
    return Some(values), owned;
  }

  /** A message that leaves its buffer behind: a table whose first key is a string cut off before its
      only byte, so the key is nil. */
  lemma LeftBehind()
    ensures DecodeAll([6, 12], 0) == Error
  {
    assert Decode([6, 12], 1) == Got(Nil, 2);
    assert DecodeEntries([6, 12], 1) == Error;
    assert DecodeTable([6, 12], 1, 0) == Error;
    assert Decode([6, 12], 0) == Error;
  }
}
