/** The write buffer of the serializer (src/lua_seri.cpp): a linked list of 128-byte blocks of which
    the first belongs to the caller, refining a flat byte string. */
module WriteBuffer {
  import opened Bytes

  const BLOCK_SIZE: nat := 128

  class Block {
    var next: Block?
    const buffer: array<byte>

    constructor ()
      ensures next == null && buffer.Length == BLOCK_SIZE && fresh(buffer)
    {
      next := null;
      buffer := new byte[BLOCK_SIZE];
    }
  }

  /** How many heap blocks hold `len` bytes behind the first block. */
  function HeapBlocks(len: nat): (n: nat)
    ensures n > 0 <==> len > BLOCK_SIZE
  {
    if len == 0 then 0 else (len - 1) / BLOCK_SIZE
  }

  ghost predicate Distinct(blocks: seq<Block>) {
    forall i, j :: 0 <= i < j < |blocks| ==> blocks[i] != blocks[j]
  }

  lemma NextPiece(data: Str, src: nat, copy: nat)
    requires src + copy <= |data|
    ensures data[..src + copy] == data[..src] + data[src..][..copy]
  {
    assert data[src..][..copy] == data[src..src + copy];
  }

  class WriteBlock {
    var head: Block
    var current: Block
    var len: nat
    var ptr: nat
    ghost var chain: seq<Block>     // the blocks in list order
    ghost var contents: Str         // the bytes pushed so far
    ghost var Repr: set<object>

    /** The blocks form one list from `head` to `current` without sharing. */
    ghost predicate Linked()
      reads this, Repr
    {
      && this in Repr && |chain| > 0 && head == chain[0] && current == chain[|chain| - 1]
      && (forall i :: 0 <= i < |chain| ==>
            chain[i] in Repr && chain[i].buffer in Repr && chain[i].buffer.Length == BLOCK_SIZE)
      && (forall i, j :: 0 <= i < j < |chain| ==>
            chain[i] != chain[j] && chain[i].buffer != chain[j].buffer)
      && (forall i :: 0 <= i < |chain| - 1 ==> chain[i].next == chain[i + 1])
      && current.next == null
    }

    /** All blocks but the current one are full, and together they hold the contents. */
    ghost predicate Filled()
      requires Linked()
      reads this, Repr
    {
      && ptr <= BLOCK_SIZE && |contents| == len && len == BLOCK_SIZE * (|chain| - 1) + ptr
      && (forall i :: 0 <= i < |chain| - 1 ==>
            chain[i].buffer[..] == contents[BLOCK_SIZE * i..BLOCK_SIZE * i + BLOCK_SIZE])
      && current.buffer[..ptr] == contents[BLOCK_SIZE * (|chain| - 1)..]
    }

    /** And no block was allocated before it was needed. */
    ghost predicate Valid()
      reads this, Repr
    {
      Linked() && Filled() && (|chain| == 1 || ptr > 0)
    }

    constructor (first: Block)
      requires first.buffer.Length == BLOCK_SIZE
      modifies first
      ensures Valid() && contents == [] && chain == [first]
      ensures Repr == {this, first, first.buffer}
    {
      head, current := first, first;
      len, ptr := 0, 0;
      chain, contents := [first], [];
      Repr := {this, first, first.buffer};
      new;
      first.next := null;
    }

    /** Append a fresh block behind a full current one. */
    method Grow()
      requires Linked() && Filled() && ptr == BLOCK_SIZE
      modifies this`chain, this`Repr, this`current, this`ptr, current`next
      ensures Linked() && Filled() && ptr == 0 && contents == old(contents) && head == old(head)
      ensures fresh(Repr - old(Repr)) && old(Repr) <= Repr && fresh(current)
      ensures chain == old(chain) + [current] && fresh(current.buffer)
    {
      ghost var n := |chain|;
      assert current.buffer[..] == contents[BLOCK_SIZE * (n - 1)..BLOCK_SIZE * (n - 1) + BLOCK_SIZE] by {
        assert current.buffer[..] == current.buffer[..ptr];
      }
      var nb := new Block();
      current.next := nb;
      chain := chain + [nb];
      Repr := Repr + {nb, nb.buffer};
      current := nb;
      ptr := 0;
      assert Linked() by {
        assert forall i :: 0 <= i < n ==> chain[i] == old(chain)[i];
      }
      assert forall i :: 0 <= i < n ==>
          chain[i].buffer[..] == contents[BLOCK_SIZE * i..BLOCK_SIZE * i + BLOCK_SIZE];
      assert current.buffer[..0] == contents[BLOCK_SIZE * n..];
    }

    /** Copy a piece that fits into the current block. */
    method Fill(piece: Str)
      requires Linked() && Filled() && 1 <= |piece| <= BLOCK_SIZE - ptr
      modifies this`len, this`ptr, this`contents, current.buffer
      ensures Valid() && ptr == old(ptr) + |piece| && contents == old(contents) + piece
    {
      Put(current.buffer, ptr, piece);
      ptr := ptr + |piece|;
      len := len + |piece|;
      ghost var before := contents;
      contents := contents + piece;
      assert contents[BLOCK_SIZE * (|chain| - 1)..] == before[BLOCK_SIZE * (|chain| - 1)..] + piece;
      assert forall i :: 0 <= i < |chain| - 1 ==>
          contents[BLOCK_SIZE * i..BLOCK_SIZE * i + BLOCK_SIZE]
          == before[BLOCK_SIZE * i..BLOCK_SIZE * i + BLOCK_SIZE];
    }

    /** One turn of the push loop: as much as fits into the current or a new block. */
    method PushSome(data: Str) returns (copy: nat)
      requires Valid() && |data| > 0
      modifies Repr
      ensures Valid() && 1 <= copy <= |data| && contents == old(contents) + data[..copy]
      ensures fresh(Repr - old(Repr)) && old(Repr) <= Repr && head == old(head)
      ensures chain == old(chain) || (chain == old(chain) + [current] && fresh(current))
    {
      if ptr == BLOCK_SIZE {
        Grow();
      }
      var space := BLOCK_SIZE - ptr;
      copy := if |data| < space then |data| else space;
      Fill(data[..copy]);
    }

    method Push(data: Str)
      requires Valid()
      modifies Repr
      ensures Valid() && contents == old(contents) + data
      ensures fresh(Repr - old(Repr)) && old(Repr) <= Repr
      ensures head == old(head) && old(chain) <= chain
      ensures forall i :: |old(chain)| <= i < |chain| ==> fresh(chain[i])
    {
      var src := 0;
      while src < |data|
        invariant Valid() && src <= |data| && contents == old(contents) + data[..src]
        invariant fresh(Repr - old(Repr)) && old(Repr) <= Repr
        invariant head == old(head) && old(chain) <= chain
        invariant forall i :: |old(chain)| <= i < |chain| ==> fresh(chain[i])
      {
        var copy := PushSome(data[src..]);
        NextPiece(data, src, copy);
        src := src + copy;
      }
      assert data[..src] == data;
    }

    /** The heap blocks are as many as the contents need. */
    lemma BlockCount()
      requires Valid()
      ensures |chain| - 1 == HeapBlocks(|contents|) && Distinct(chain[1..])
    {
      var n := |chain| - 1;
      if n > 0 {
        assert len - 1 == BLOCK_SIZE * n + (ptr - 1);
      }
    }

    /** The bytes block `k` of the list contributes. */
    ghost function Share(k: nat): nat
      requires k < |chain|
      reads this
    {
      if k == |chain| - 1 then ptr else BLOCK_SIZE
    }

    /** Copy all blocks into one buffer. */
    method Seri() returns (out: array<byte>)
      requires Valid()
      ensures fresh(out) && out[..] == contents
    {
      out := new byte[len];
      var b: Block? := head;
      var dst, remaining := 0, len;
      ghost var k := 0;
      while b != null && remaining > 0
        invariant k <= |chain| && b == (if k < |chain| then chain[k] else null)
        invariant dst == (if k < |chain| then BLOCK_SIZE * k else len)
        invariant remaining == len - dst
        invariant out[..dst] == contents[..dst]
        decreases |chain| - k
      {
        var copy := if b == current then ptr else BLOCK_SIZE;
        if copy > remaining {
          copy := remaining;
        }
        assert copy == Share(k);
        assert b.buffer[..copy] == contents[dst..dst + copy];
        assert contents[..dst + copy] == contents[..dst] + contents[dst..dst + copy];
        Put(out, dst, b.buffer[..copy]);
        dst := dst + copy;
        remaining := remaining - copy;
        b := b.next;
        k := k + 1;
      }
      assert dst == len;
      assert out[..] == out[..dst];
    }

    /** Free every block but the first; `freed` lists the blocks in the order they are freed. */
    method FreeBlocks() returns (freed: seq<Block>)
      requires Valid()
      modifies head
      ensures freed == chain[1..] && head.next == null
      ensures Distinct(freed) && head !in freed
    {
      freed := [];
      var b := head.next;
      ghost var k := 1;
      while b != null
        invariant 1 <= k <= |chain| && b == (if k < |chain| then chain[k] else null)
        invariant freed == chain[1..k]
        decreases |chain| - k
      {
        var next := b.next;
        freed := freed + [b];
        b := next;
        k := k + 1;
      }
      head.next := null;
    }
  }
}
