/** The growing circular block index of an implicit producer
    (3rdparty/concurrentqueue/concurrentqueue.h): which entry belongs to which block of the queue,
    across inserts, rewinds of a failed insert, and doublings of the capacity.  Blocks are numbered
    in the order they are appended, so block b starts at queue index b * BLOCK_SIZE. */
module BlockIndex {
  import opened Numbers

  const BLOCK_SIZE: nat := 32
  const INVALID_BLOCK_BASE: int := 1
  const INITIAL_CAPACITY: nat := 32

  class Entry {
    var key: int      // start index of the block, or INVALID_BLOCK_BASE
    var value: nat    // the block's address, 0 for nullptr

    /** A new entry has an invalid key; its value is not initialised. */
    constructor (garbage: nat)
      ensures key == INVALID_BLOCK_BASE && value == garbage
    {
      key := INVALID_BLOCK_BASE;
      value := garbage;
    }
  }

  /** Position `j` places before `tail` on a circle of `capacity` positions. */
  function Back(tail: nat, j: nat, capacity: nat): (p: nat)
    requires tail < capacity && j < capacity
    ensures p < capacity
  {
    if j <= tail then tail - j else tail - j + capacity
  }

  /** Moving the tail one place on moves every other position one place back. */
  lemma BackTurns(tail: nat, newTail: nat, j: nat, capacity: nat)
    requires tail < capacity && newTail == Back(tail, capacity - 1, capacity) && 1 <= j < capacity
    ensures Back(newTail, j, capacity) == Back(tail, j - 1, capacity) != newTail
  {
  }

  /** For a power of two, masking with capacity - 1 is the remainder; near the circle it is one
      addition or subtraction. */
  lemma MaskNear(x: int, capacity: nat)
    requires capacity > 0 && 0 <= x + capacity && x < 2 * capacity
    ensures x % capacity == if x < 0 then x + capacity else if x < capacity then x else x - capacity
  {
    if x < 0 {
      assert x == (-1) * capacity + (x + capacity);
    } else if x >= capacity {
      assert x == 1 * capacity + (x - capacity);
    }
  }

  // ----- The index as a value: the entries from the newest to the oldest ------------------------

  datatype Cell = Cell(key: int, value: nat)

  /** `blocks` appended so far, the last `span` of them still own a cell, `live` are published and
      not yet emptied; when `pending`, the newest one has a cell but no address yet. */
  datatype Book = Book(blocks: nat, span: nat, live: set<nat>, pending: bool)

  predicate Free(c: Cell) {
    c.key == INVALID_BLOCK_BASE || c.value == 0
  }

  ghost predicate Good(ring: seq<Cell>, b: Book) {
    && b.span <= |ring| && b.span <= b.blocks && (b.blocks > 0 ==> b.span >= 1)
    && (forall j :: 0 <= j < b.span ==> ring[j].key == BLOCK_SIZE * (b.blocks - 1 - j))
    && (forall j :: (if b.pending then 1 else 0) <= j < b.span ==>
          (ring[j].value != 0 <==> b.blocks - 1 - j in b.live))
    && (forall j :: b.span <= j < |ring| ==> Free(ring[j]))
    && (forall k :: k in b.live ==> b.blocks - b.span <= k < b.blocks)
    && (b.pending ==> b.blocks > 0 && b.blocks - 1 !in b.live && (b.blocks > 1 ==> b.span > 1))
  }

  function Appended(b: Book, capacity: nat): Book {
    Book(b.blocks + 1, if b.span < capacity then b.span + 1 else capacity, b.live, true)
  }

  /** A new block takes over the oldest cell, keeping that cell's stale address. */
  function Turned(ring: seq<Cell>, key: int): seq<Cell>
    requires |ring| > 0
  {
    [Cell(key, ring[|ring| - 1].value)] + ring[..|ring| - 1]
  }

  /** A cell may be taken over exactly when its block has been emptied: then nothing live is lost. */
  lemma AppendGood(ring: seq<Cell>, b: Book)
    requires Good(ring, b) && !b.pending && |ring| > 1
    ensures Free(ring[|ring| - 1]) ==> Good(Turned(ring, BLOCK_SIZE * b.blocks), Appended(b, |ring|))
    ensures !Free(ring[|ring| - 1]) <==> b.span == |ring| && b.blocks - |ring| in b.live
  {
    if Free(ring[|ring| - 1]) {
      var ring', b' := Turned(ring, BLOCK_SIZE * b.blocks), Appended(b, |ring|);
      assert forall j :: 1 <= j < |ring| ==> ring'[j] == ring[j - 1];
    }
  }

  /** rewind_block_index_tail after a failed allocation. */
  function Rewound(ring: seq<Cell>): seq<Cell>
    requires |ring| > 0
  {
    ring[1..] + [Cell(ring[0].key, 0)]
  }

  lemma RewindGood(ring: seq<Cell>, b: Book)
    requires Good(ring, b) && b.pending && |ring| > 1
    ensures Good(Rewound(ring), Book(b.blocks - 1, b.span - 1, b.live, false))
  {
  }

  /** Doubling appends invalid cells behind the oldest one. */
  lemma GrowGood(ring: seq<Cell>, more: seq<Cell>, b: Book)
    requires Good(ring, b) && forall j :: 0 <= j < |more| ==> more[j].key == INVALID_BLOCK_BASE
    ensures Good(ring + more, b)
  {
  }

  lemma Doubled(ring: seq<Cell>, big: seq<Cell>, b: Book)
    requires Good(ring, b) && !b.pending && |big| > |ring| > 1 && big[..|ring|] == ring
    requires forall j :: |ring| <= j < |big| ==> big[j].key == INVALID_BLOCK_BASE
    ensures Free(big[|big| - 1])
    ensures Good(Turned(big, BLOCK_SIZE * b.blocks), Appended(b, |big|))
  {
    GrowGood(ring, big[|ring|..], b);
    assert big == ring + big[|ring|..];
    AppendGood(big, b);
  }

  /** The cell of a live block is as many places back as blocks were appended after it. */
  lemma LookupGood(ring: seq<Cell>, b: Book, k: nat)
    requires Good(ring, b) && k in b.live
    ensures b.blocks - 1 - k < b.span && ring[b.blocks - 1 - k].key == BLOCK_SIZE * k
    ensures ring[b.blocks - 1 - k].value != 0 && ring[0].key == BLOCK_SIZE * (b.blocks - 1)
  {
    var j := b.blocks - 1 - k;
    assert ring[j].key == BLOCK_SIZE * (b.blocks - 1 - j);
  }

  /** An address makes the newest block live. */
  lemma PublishGood(ring: seq<Cell>, b: Book, address: nat)
    requires Good(ring, b) && b.pending && address != 0
    ensures Good(ring[0 := Cell(ring[0].key, address)],
                 b.(live := b.live + {b.blocks - 1}, pending := false))
  {
  }

  /** Once a block is emptied its cell is free. */
  lemma RetireGood(ring: seq<Cell>, b: Book, k: nat, after: seq<Cell>)
    requires Good(ring, b) && k in b.live
    requires var j := b.blocks - 1 - k; after == ring[j := Cell(ring[j].key, 0)]
    ensures Good(after, b.(live := b.live - {k}))
  {
  }

  /** `n` new entries. */
  method FreshEntries(n: nat, garbage: nat) returns (entries: seq<Entry>)
    ensures |entries| == n && fresh(entries)
    ensures forall i :: 0 <= i < n ==> entries[i].key == INVALID_BLOCK_BASE
    ensures forall i, j :: 0 <= i < j < n ==> entries[i] != entries[j]
  {
    entries := [];
    while |entries| < n
      invariant |entries| <= n && fresh(entries)
      invariant forall i :: 0 <= i < |entries| ==> entries[i].key == INVALID_BLOCK_BASE
      invariant forall i, j :: 0 <= i < j < |entries| ==> entries[i] != entries[j]
    {
      var e := new Entry(garbage);
      entries := entries + [e];
    }
  }

  // ----- The circle ------------------------------------------------------------------------------

  /** The cells of a circle from `tail` backwards. */
  function RingOf(cells: seq<Cell>, tail: nat): (r: seq<Cell>)
    requires tail < |cells|
    ensures |r| == |cells| && forall j :: 0 <= j < |r| ==> r[j] == cells[Back(tail, j, |cells|)]
  {
    seq(|cells|, j requires 0 <= j < |cells| => cells[Back(tail, j, |cells|)])
  }

  lemma RingSet(cells: seq<Cell>, tail: nat, j: nat, c: Cell)
    requires tail < |cells| && j < |cells|
    ensures RingOf(cells[Back(tail, j, |cells|) := c], tail) == RingOf(cells, tail)[j := c]
  {
  }

  lemma RingTurns(cells: seq<Cell>, tail: nat, newTail: nat, key: int)
    requires tail < |cells| && newTail == Back(tail, |cells| - 1, |cells|)
    ensures RingOf(cells[newTail := Cell(key, cells[newTail].value)], newTail)
            == Turned(RingOf(cells, tail), key)
  {
    var n, after := |cells|, cells[newTail := Cell(key, cells[newTail].value)];
    forall j | 0 <= j < n
      ensures RingOf(after, newTail)[j] == Turned(RingOf(cells, tail), key)[j]
    {
      if j > 0 {
        BackTurns(tail, newTail, j, n);
      }
    }
  }

  lemma RingRewinds(cells: seq<Cell>, tail: nat, newTail: nat)
    requires tail < |cells| && newTail < |cells| && tail == Back(newTail, |cells| - 1, |cells|)
    ensures RingOf(cells[tail := Cell(cells[tail].key, 0)], newTail) == Rewound(RingOf(cells, tail))
  {
    var n, after := |cells|, cells[tail := Cell(cells[tail].key, 0)];
    forall j | 0 <= j < n
      ensures RingOf(after, newTail)[j] == Rewound(RingOf(cells, tail))[j]
    {
      if j < n - 1 {
        BackTurns(newTail, tail, j + 1, n);
      }
    }
  }

  /** The old cells, from the oldest to the newest, in front of as many new ones. */
  lemma RingGrows(cells: seq<Cell>, tail: nat, big: seq<Cell>)
    requires tail < |cells| && |big| == 2 * |cells|
    requires forall i :: 0 <= i < |cells| ==> big[i] == cells[Back(tail, |cells| - 1 - i, |cells|)]
    requires forall i :: |cells| <= i < |big| ==> big[i].key == INVALID_BLOCK_BASE
    ensures RingOf(big, |cells| - 1)[..|cells|] == RingOf(cells, tail)
    ensures var r := RingOf(big, |cells| - 1);
            forall j :: |cells| <= j < |big| ==> r[j].key == INVALID_BLOCK_BASE
  {
    var n := |cells|;
    forall j | 0 <= j < n
      ensures RingOf(big, n - 1)[..n][j] == RingOf(cells, tail)[j]
    {
      assert RingOf(big, n - 1)[j] == big[n - 1 - j];
    }
  }

  // ----- The index in memory -------------------------------------------------------------------

  ghost function Cells(index: seq<Entry>): (s: seq<Cell>)
    reads index
    ensures |s| == |index| && forall i :: 0 <= i < |s| ==> s[i] == Cell(index[i].key, index[i].value)
  {
    seq(|index|, i requires 0 <= i < |index| reads index => Cell(index[i].key, index[i].value))
  }

  class Producer {
    var capacity: nat
    var tail: nat
    var index: seq<Entry>
    var nextCapacity: nat
    ghost var log: nat          // capacity == 2^log

    ghost predicate Shape()
      reads this
    {
      && capacity == |index| == Pow2(log) && capacity > 1 && nextCapacity == 2 * capacity && tail < capacity
      && (forall i, j :: 0 <= i < j < |index| ==> index[i] != index[j])
    }

    /** The entries from the newest to the oldest. */
    ghost function Ring(): (r: seq<Cell>)
      requires Shape()
      reads this, index
      ensures |r| == capacity
    {
      RingOf(Cells(index), tail)
    }

    /** The constructor of the producer runs new_block_index once. */
    constructor ()
      ensures Shape() && fresh(index) && Good(Ring(), Book(0, 0, {}, false))
    {
      var garbage: nat := *;
      var entries := FreshEntries(INITIAL_CAPACITY, garbage);
      index, capacity, nextCapacity := entries, INITIAL_CAPACITY, 2 * INITIAL_CAPACITY;
      tail := INITIAL_CAPACITY - 1;
      log := 5;
      assert Pow2(5) == 32 by { assert Pow2(3) == 8; }
    }

    /** Masking `x` with capacity - 1, when it is `j` places behind `start` on the circle. */
    method Masked(start: nat, ghost j: nat, x: int) returns (p: nat)
      requires Shape() && start < capacity && j < capacity && (x == start - j || x == start - j + capacity)
      ensures p == Back(start, j, capacity)
    {
      MaskNear(x, capacity);
      p := x % capacity;
    }

    /** get_block_index_entry_for_index: for any queue index inside a live block it finds the entry
        with exactly that block's key and a non-null address. */
    method Lookup(i: nat, ghost b: Book) returns (e: Entry)
      requires Shape() && Good(Ring(), b) && i / BLOCK_SIZE in b.live
      ensures e in index && e.key == BLOCK_SIZE * (i / BLOCK_SIZE) && e.value != 0
      ensures 0 <= b.blocks - 1 - i / BLOCK_SIZE < capacity
      ensures e == index[Back(tail, b.blocks - 1 - i / BLOCK_SIZE, capacity)]
    {
      var base := i - i % BLOCK_SIZE;
      ghost var j := b.blocks - 1 - i / BLOCK_SIZE;
      LookupGood(Ring(), b, i / BLOCK_SIZE);
      assert Ring()[0].key == index[tail].key;
      var tailBase := index[tail].key;
      assert tailBase - base == BLOCK_SIZE * j;
      var offset := -((tailBase - base) / BLOCK_SIZE);   // truncating division of base - tailBase
      assert offset == -j;
      var idx := Masked(tail, j, tail + offset);
      e := index[idx];
      assert Ring()[j] == Cell(e.key, e.value);
    }

    /** The attempt of insert_block_index_entry to take over the oldest entry. */
    method TakeOldest(start: int) returns (ok: bool)
      requires Shape()
      modifies this`tail, index[Back(tail, capacity - 1, capacity)]
      ensures Shape() && ok == Free(old(Ring())[capacity - 1])
      ensures ok ==> Ring() == Turned(old(Ring()), start)
      ensures !ok ==> Ring() == old(Ring())
    {
      var newTail := Masked(tail, capacity - 1, tail + 1);
      var e := index[newTail];
      assert Ring()[capacity - 1] == Cell(e.key, e.value);
      if e.key != INVALID_BLOCK_BASE && e.value != 0 {
        return false;
      }
      TakeOver(newTail, start);
      return true;
    }

    method TakeOver(newTail: nat, start: int)
      requires Shape() && newTail == Back(tail, capacity - 1, capacity)
      modifies this`tail, index[newTail]
      ensures Shape() && Ring() == Turned(old(Ring()), start)
    {
      ghost var cells := Cells(index);
      RingTurns(cells, tail, newTail, start);
      index[newTail].key := start;
      tail := newTail;
      assert Cells(index) == cells[newTail := Cell(start, cells[newTail].value)];
    }

    /** Storing the address of the newest block publishes it. */
    method Publish(address: nat, ghost b: Book)
      requires Shape() && Good(Ring(), b) && b.pending && address != 0
      modifies index
      ensures Shape() && index == old(index)
      ensures Good(Ring(), b.(live := b.live + {b.blocks - 1}, pending := false))
    {
      ghost var cells, ring := Cells(index), Ring();
      RingSet(cells, tail, 0, Cell(cells[tail].key, address));
      index[tail].value := address;
      assert Cells(index) == cells[tail := Cell(cells[tail].key, address)];
      PublishGood(ring, b, address);
    }

    /** rewind_block_index_tail, and the address set to null. */
    method StepBack()
      requires Shape()
      modifies this`tail, index[tail]
      ensures Shape() && Ring() == Rewound(old(Ring()))
    {
      ghost var cells := Cells(index);
      var e := index[tail];
      MaskNear(tail - 1, capacity);
      var newTail := (tail - 1) % capacity;
      RingRewinds(cells, tail, newTail);
      tail := newTail;
      e.value := 0;
      assert Cells(index) == cells[old(tail) := Cell(cells[old(tail)].key, 0)];
    }

    /** enqueue found no memory for the block: the index is rewound. */
    method Rewind(ghost b: Book)
      requires Shape() && Good(Ring(), b) && b.pending
      modifies this`tail, index
      ensures Shape() && Ring() == Rewound(old(Ring()))
      ensures Good(Ring(), Book(b.blocks - 1, b.span - 1, b.live, false))
    {
      RewindGood(Ring(), b);
      StepBack();
    }

    /** A consumer took the last element of a block, whose queue index was `i`. */
    method Retire(i: nat, ghost b: Book)
      requires Shape() && Good(Ring(), b) && i / BLOCK_SIZE in b.live
      modifies index
      ensures Shape() && index == old(index) && tail == old(tail)
      ensures Good(Ring(), b.(live := b.live - {i / BLOCK_SIZE}))
    {
      ghost var ring, j := Ring(), b.blocks - 1 - i / BLOCK_SIZE;
      var e := Lookup(i, b);
      Clear(e, j);
      RetireGood(ring, b, i / BLOCK_SIZE, Ring());
    }

    /** The address of an entry is set to null. */
    method Clear(e: Entry, ghost j: nat)
      requires Shape() && j < capacity && e == index[Back(tail, j, capacity)]
      modifies e`value
      ensures Shape() && Ring() == old(Ring())[j := Cell(old(Ring())[j].key, 0)]
    {
      ghost var cells, at := Cells(index), Back(tail, j, capacity);
      RingSet(cells, tail, j, Cell(cells[at].key, 0));
      e.value := 0;
      assert Cells(index) == cells[at := Cell(cells[at].key, 0)];
    }

    /** The entries of new_block_index: the old ones from the oldest to the newest. */
    method OldestFirst() returns (entries: seq<Entry>)
      requires Shape()
      ensures |entries| == capacity
      ensures forall j :: 0 <= j < capacity ==> entries[capacity - 1 - j] == index[Back(tail, j, capacity)]
    {
      var pos := tail;
      entries := [];
      // the loop of the source tests its condition at the end
      while |entries| == 0 || pos != tail
        invariant |entries| <= capacity && pos < capacity
        invariant pos == if tail + |entries| < capacity then tail + |entries| else tail + |entries| - capacity
        invariant forall i :: 0 <= i < |entries| ==> entries[i] == index[Back(tail, capacity - 1 - i, capacity)]
        decreases capacity - |entries|
      {
        MaskNear(pos + 1, capacity);
        pos := (pos + 1) % capacity;
        entries := entries + [index[pos]];
      }
    }

    /** new_block_index: doubles the capacity; the ring keeps its cells and gets invalid ones behind
        the oldest. */
    method Grow(garbage: nat)
      requires Shape()
      modifies this
      ensures Shape() && capacity == 2 * old(capacity)
      ensures forall e :: e in index ==> e in old(index) || fresh(e)
      ensures |Ring()| > old(capacity) && Ring()[..old(capacity)] == old(Ring())
      ensures forall j :: old(capacity) <= j < capacity ==> Ring()[j].key == INVALID_BLOCK_BASE
    {
      var entries := OldestFirst();
      Reversed(tail, capacity, index, entries);
      ghost var cells, n := Cells(index), capacity;
      var more := FreshEntries(capacity, garbage);
      assert forall i, j :: 0 <= i < n && 0 <= j < n ==> entries[i] != more[j];
      tail := capacity - 1;
      index, capacity, nextCapacity, log := entries + more, 2 * capacity, 4 * capacity, log + 1;
      RingGrows(cells, old(tail), Cells(index));
    }

    /** The second half of insert_block_index_entry, when every entry is still in use. */
    method GrowAndTake(start: int, garbage: nat, ghost b: Book)
      requires Shape() && Good(Ring(), b) && !b.pending && start == BLOCK_SIZE * b.blocks
      modifies this, index
      ensures Shape() && capacity == 2 * old(capacity) && Good(Ring(), Appended(b, capacity))
    {
      ghost var ring := Ring();
      Grow(garbage);
      assert index[Back(tail, capacity - 1, capacity)] in index;
      Doubled(ring, Ring(), b);
      var ok := TakeOldest(start);
    }

    /** insert_block_index_entry for the next block.  It fails, changing nothing, exactly when the
        oldest entry still has a block and a larger index cannot be allocated. */
    method Insert(start: int, canAlloc: bool, garbage: nat, ghost b: Book) returns (ok: bool)
      requires Shape() && Good(Ring(), b) && !b.pending && start == BLOCK_SIZE * b.blocks
      modifies this, index
      ensures Shape() && ok == (Free(old(Ring())[old(capacity) - 1]) || canAlloc)
      ensures capacity == if ok && !Free(old(Ring())[old(capacity) - 1])
                          then 2 * old(capacity) else old(capacity)
      ensures ok ==> Good(Ring(), Appended(b, capacity))
      ensures !ok ==> Ring() == old(Ring())
    {
      AppendGood(Ring(), b);
      assert index[Back(tail, capacity - 1, capacity)] in index;
      ok := TakeOldest(start);
      if !ok && canAlloc {
        assert Good(Ring(), b);
        GrowAndTake(start, garbage, b);
        ok := true;
      }
    }
  }

  /** Old entries keep their distance from the newest, and stay different from each other. */
  lemma Reversed(tail: nat, n: nat, index: seq<Entry>, entries: seq<Entry>)
    requires tail < n == |index| && |entries| >= n
    requires forall i, j :: 0 <= i < j < |index| ==> index[i] != index[j]
    requires forall j :: 0 <= j < n ==> entries[n - 1 - j] == index[Back(tail, j, n)]
    ensures forall i, j :: 0 <= i < j < n ==> entries[i] != entries[j]
    ensures forall i :: 0 <= i < n ==> entries[i] in index
  {
    forall i, j | 0 <= i < j < n ensures entries[i] != entries[j] {
      assert entries[n - 1 - (n - 1 - i)] == index[Back(tail, n - 1 - i, n)];
      assert entries[n - 1 - (n - 1 - j)] == index[Back(tail, n - 1 - j, n)];
    }
    forall i | 0 <= i < n ensures entries[i] in index {
      assert entries[n - 1 - (n - 1 - i)] == index[Back(tail, n - 1 - i, n)];
    }
  }
}
