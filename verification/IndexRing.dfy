/** The block index of an implicit producer, as a value: a ring of pointers to entries.

    Block number q holds the elements [q * BLOCK_SIZE, (q + 1) * BLOCK_SIZE).  Blocks enter the ring
    one after the other, so block q sits at slot (bias + q) mod capacity; the window of the
    `capacity` block numbers from the oldest live one covers every slot once. */
module IndexRing {
  import opened Modular
  import opened Options
  import opened Wraparound
  import opened BlockPool

  const INVALID_BLOCK_BASE: Index := 1

  /** `value` is null or the block; an entry never used has the invalid key, and its value is whatever the
      memory held. */
  datatype Entry = Entry(key: Index, value: Option<Block>)

  function Slot(bias: int, q: int, capacity: nat): (slot: nat)
    requires capacity > 0
    ensures slot < capacity
  {
    (bias + q) % capacity
  }

  function EntryOf(index: seq<nat>, entries: seq<Entry>, bias: int, q: int): Entry
    requires |index| > 0 && forall i | 0 <= i < |index| :: index[i] < |entries|
  {
    entries[index[Slot(bias, q, |index|)]]
  }

  /** The slots are distinct entries. */
  ghost predicate IsIndex(index: seq<nat>, entries: seq<Entry>) {
    && |index| > 0
    && (forall i | 0 <= i < |index| :: index[i] < |entries|)
    && (forall i, j | 0 <= i < j < |index| :: index[i] != index[j])
  }

  predicate IsFree(entry: Entry) { entry.key == INVALID_BLOCK_BASE || entry.value == None }

  /** Blocks [first, count) are live and in their slots, and the slots of [free, first + capacity) are free. */
  ghost predicate Window(index: seq<nat>, entries: seq<Entry>, bias: int, first: nat, count: nat, free: nat,
                         blocks: map<nat, Block>) {
    && IsIndex(index, entries)
    && first <= count <= free <= first + |index|
    && (forall q | first <= q < count :: q in blocks && EntryOf(index, entries, bias, q) == Entry(Wrap(q * BLOCK_SIZE), Some(blocks[q])))
    && (forall q | free <= q < first + |index| :: IsFree(EntryOf(index, entries, bias, q)))
  }

  /** The ring between operations.  The key that a lookup starts from is that of block count - 1, which is
      live whenever there is anything to look up. */
  ghost predicate RingInv(index: seq<nat>, entries: seq<Entry>, tail: nat, bias: int, first: nat, count: nat,
                          blocks: map<nat, Block>) {
    && Window(index, entries, bias, first, count, count, blocks)
    && tail == Slot(bias, count - 1, |index|)
  }

  // ---- Slots -------------------------------------------------------------------------

  lemma SlotShift(bias: int, q: int, d: int, capacity: nat)
    requires capacity > 0
    ensures (Slot(bias, q, capacity) + d) % capacity == Slot(bias, q + d, capacity)
  {
    var x := bias + q;
    SameRemainder(x % capacity + d, x / capacity, capacity);
    assert capacity * (x / capacity) + (x % capacity + d) == x + d;
  }

  lemma SlotWraps(bias: int, q: int, capacity: nat)
    requires capacity > 0
    ensures Slot(bias, q + capacity, capacity) == Slot(bias, q, capacity)
  {
    SameRemainder(bias + q, 1, capacity);
    assert capacity * 1 + (bias + q) == bias + (q + capacity);
  }

  lemma SlotIsInjective(bias: int, q: int, r: int, capacity: nat)
    requires capacity > 0 && q < r < q + capacity
    ensures Slot(bias, q, capacity) != Slot(bias, r, capacity)
  {
    DistinctRemainders(bias, q, r, capacity);
  }

  lemma DistinctEntries(index: seq<nat>, entries: seq<Entry>, bias: int, q: int, r: int)
    requires IsIndex(index, entries) && q != r && -|index| < q - r < |index|
    ensures index[Slot(bias, q, |index|)] != index[Slot(bias, r, |index|)]
  {
    if q < r {
      SlotIsInjective(bias, q, r, |index|);
    } else {
      SlotIsInjective(bias, r, q, |index|);
    }
  }

  // ---- Lookup ------------------------------------------------------------------------

  /** The slot that get_block_index_index_for_index computes from the tail slot and its key. */
  function LookupSlot(tail: nat, tailBase: Index, base: Index, capacity: nat): nat
    requires capacity > 0
  {
    Add(tail, BlockOffset(base, tailBase)) % capacity
  }

  /** It is the slot of the block, ahead of the tail slot or behind it. */
  lemma LookupIsExact(bias: int, q: nat, from: nat, capacity: nat)
    requires capacity > 0 && INDEX_RANGE % capacity == 0
    requires -HALF <= (q - from) * BLOCK_SIZE < HALF
    ensures LookupSlot(Slot(bias, from, capacity), Wrap(from * BLOCK_SIZE), Wrap(q * BLOCK_SIZE), capacity) == Slot(bias, q, capacity)
  {
    RingSlotIsExact(Slot(bias, from, capacity), q, from, capacity);
    SlotShift(bias, from, q - from, capacity);
  }

  // ---- Updates -----------------------------------------------------------------------

  /** A change of one entry leaves the other block numbers of a window alone. */
  lemma OthersKeep(index: seq<nat>, entries: seq<Entry>, entries': seq<Entry>, bias: int, q: int, r: int)
    requires IsIndex(index, entries) && |entries'| == |entries| && q != r && -|index| < q - r < |index|
    requires entries' == entries[index[Slot(bias, q, |index|)] := entries'[index[Slot(bias, q, |index|)]]]
    ensures EntryOf(index, entries', bias, r) == EntryOf(index, entries, bias, r)
  {
    DistinctEntries(index, entries, bias, q, r);
  }

  /** What happens to a slot of neither kind does not matter. */
  lemma WindowKeeps(index: seq<nat>, entries: seq<Entry>, bias: int, first: nat, count: nat, free: nat,
                    blocks: map<nat, Block>, q: nat, entry: Entry)
    requires Window(index, entries, bias, first, count, free, blocks) && count <= q < free
    ensures Window(index, entries[index[Slot(bias, q, |index|)] := entry], bias, first, count, free, blocks)
    ensures EntryOf(index, entries[index[Slot(bias, q, |index|)] := entry], bias, q) == entry
  {
    var entries' := entries[index[Slot(bias, q, |index|)] := entry];
    forall r | first <= r < first + |index| && r != q ensures EntryOf(index, entries', bias, r) == EntryOf(index, entries, bias, r) {
      OthersKeep(index, entries, entries', bias, q, r);
    }
  }

  /** Blocks [start, count) have their keys, and the values of the first `undone` of them are null. */
  ghost predicate Emptying(index: seq<nat>, entries: seq<Entry>, bias: int, first: nat, start: nat, count: nat,
                           undone: nat, blocks: map<nat, Block>) {
    && Window(index, entries, bias, first, start, count, blocks)
    && (forall q | start <= q < count :: EntryOf(index, entries, bias, q).key == Wrap(q * BLOCK_SIZE))
    && (forall q | start <= q < start + undone :: EntryOf(index, entries, bias, q).value == None)
  }

  lemma EmptyOneMore(index: seq<nat>, entries: seq<Entry>, bias: int, first: nat, start: nat, count: nat, undone: nat,
                     blocks: map<nat, Block>)
    requires Emptying(index, entries, bias, first, start, count, undone, blocks) && start + undone < count
    ensures var e := index[Slot(bias, start + undone, |index|)];
            Emptying(index, entries[e := entries[e].(value := None)], bias, first, start, count, undone + 1, blocks)
  {
    var q := start + undone;
    var entry := EntryOf(index, entries, bias, q).(value := None);
    var entries' := entries[index[Slot(bias, q, |index|)] := entry];
    WindowKeeps(index, entries, bias, first, start, count, blocks, q, entry);
    forall r | start <= r < count && r != q ensures EntryOf(index, entries', bias, r) == EntryOf(index, entries, bias, r) {
      OthersKeep(index, entries, entries', bias, q, r);
    }
  }

  lemma EmptyingKey(index: seq<nat>, entries: seq<Entry>, bias: int, first: nat, start: nat, count: nat, undone: nat,
                    blocks: map<nat, Block>, m: nat)
    requires Emptying(index, entries, bias, first, start, count, undone, blocks) && start <= m < count
    ensures IsIndex(index, entries) && EntryOf(index, entries, bias, m).key == Wrap(m * BLOCK_SIZE)
    ensures first <= start <= count
  {}

  /** Block starts are multiples of the block size, also wrapped, so the odd invalid key is never one. */
  lemma KeyIsValid(q: nat)
    ensures Wrap(q * BLOCK_SIZE) != INVALID_BLOCK_BASE
  {
    var k := q * BLOCK_SIZE / INDEX_RANGE;
    assert q * BLOCK_SIZE == INDEX_RANGE * k + Wrap(q * BLOCK_SIZE);
  }

  /** insert_block_index_entry finds room exactly when the window is not full. */
  lemma RoomAhead(index: seq<nat>, entries: seq<Entry>, tail: nat, bias: int, first: nat, count: nat,
                  blocks: map<nat, Block>)
    requires RingInv(index, entries, tail, bias, first, count, blocks)
    ensures (tail + 1) % |index| == Slot(bias, count, |index|)
    ensures IsFree(EntryOf(index, entries, bias, count)) <==> count < first + |index|
  {
    SlotShift(bias, count - 1, 1, |index|);
    if count == first + |index| {
      SlotWraps(bias, first, |index|);
      KeyIsValid(first);
      assert EntryOf(index, entries, bias, first) == EntryOf(index, entries, bias, count);
    }
  }

  /** The oldest block leaves, and its slot is the last of the free ones. */
  lemma ReleaseKeepsRing(index: seq<nat>, entries: seq<Entry>, tail: nat, bias: int, first: nat, count: nat,
                         blocks: map<nat, Block>, entry: Entry)
    requires RingInv(index, entries, tail, bias, first, count, blocks) && first < count && IsFree(entry)
    ensures RingInv(index, entries[index[Slot(bias, first, |index|)] := entry], tail, bias, first + 1, count, blocks - {first})
  {
    var entries' := entries[index[Slot(bias, first, |index|)] := entry];
    forall q | first <= q < first + |index| && q != first ensures EntryOf(index, entries', bias, q) == EntryOf(index, entries, bias, q) {
      OthersKeep(index, entries, entries', bias, first, q);
    }
    SlotWraps(bias, first, |index|);
    assert EntryOf(index, entries', bias, first + |index|) == entry;
  }

  // ---- Growth ------------------------------------------------------------------------

  /** The index that new_block_index builds: the old slots in order from the oldest, then fresh entries. */
  ghost predicate IsDoubled(index: seq<nat>, entries: seq<Entry>, tail: nat, index': seq<nat>, entries': seq<Entry>) {
    && |index'| == 2 * |index| && |entries'| == |entries| + |index| && |index| > 0
    && entries'[..|entries|] == entries
    && (forall i | 0 <= i < |index| :: index'[i] == index[(tail + 1 + i) % |index|])
    && (forall i | |index| <= i < 2 * |index| :: index'[i] == |entries| + i - |index|)
    && (forall e | |entries| <= e < |entries'| :: entries'[e].key == INVALID_BLOCK_BASE)
  }

  lemma DoublingKeepsSlot(index: seq<nat>, tail: nat, bias: int, count: nat, q: nat)
    requires |index| > 0 && tail == Slot(bias, count - 1, |index|) && count - |index| <= q < count
    ensures var s := Slot(|index| - count, q, 2 * |index|);
            s < |index| && (tail + 1 + s) % |index| == Slot(bias, q, |index|)
  {
    var s := |index| - count + q;
    RemainderIsUnique(s, 0, s, 2 * |index|);
    SlotShift(bias, count - 1, 1 + s, |index|);
    SlotWraps(bias, q, |index|);
    assert (tail + 1 + s) % |index| == (Slot(bias, count - 1, |index|) + (1 + s)) % |index|;
    assert count - 1 + (1 + s) == q + |index|;
  }

  lemma DoublingIsIndex(index: seq<nat>, entries: seq<Entry>, tail: nat, index': seq<nat>, entries': seq<Entry>)
    requires IsIndex(index, entries) && IsDoubled(index, entries, tail, index', entries')
    ensures IsIndex(index', entries')
  {
    var n := |index|;
    forall i | 0 <= i < n ensures index'[i] == index[Slot(tail + 1, i, n)] < |entries| {}
    forall i, j | 0 <= i < j < |index'| ensures index'[i] != index'[j] {
      if j < n {
        DistinctEntries(index, entries, tail + 1, i, j);
      }
    }
  }

  /** A live block keeps its entry, and its new slot is its distance from the oldest. */
  lemma DoublingKeepsEntry(index: seq<nat>, entries: seq<Entry>, tail: nat, bias: int, count: nat, index': seq<nat>,
                           entries': seq<Entry>, q: nat)
    requires IsIndex(index, entries) && IsDoubled(index, entries, tail, index', entries') && IsIndex(index', entries')
    requires tail == Slot(bias, count - 1, |index|) && count - |index| <= q < count
    ensures EntryOf(index', entries', |index| - count, q) == EntryOf(index, entries, bias, q)
  {
    DoublingKeepsSlot(index, tail, bias, count, q);
    assert entries'[..|entries|][index[Slot(bias, q, |index|)]] == entries'[index[Slot(bias, q, |index|)]];
  }

  lemma DoublingMakesRoom(index: seq<nat>, entries: seq<Entry>, tail: nat, count: nat, index': seq<nat>,
                          entries': seq<Entry>, q: nat)
    requires IsDoubled(index, entries, tail, index', entries') && IsIndex(index', entries')
    requires count <= q < count + |index|
    ensures IsFree(EntryOf(index', entries', |index| - count, q))
  {
    var s := |index| - count + q;
    RemainderIsUnique(s, 0, s, 2 * |index|);
    assert Slot(|index| - count, q, |index'|) == s;
  }

  /** Growth of a full ring keeps every live block and makes room ahead of the tail. */
  lemma DoublingKeepsRing(index: seq<nat>, entries: seq<Entry>, tail: nat, bias: int, first: nat, count: nat,
                          blocks: map<nat, Block>,
                          index': seq<nat>, entries': seq<Entry>)
    requires RingInv(index, entries, tail, bias, first, count, blocks) && count == first + |index|
    requires IsDoubled(index, entries, tail, index', entries')
    ensures RingInv(index', entries', |index| - 1, |index| - count, first, count, blocks)
  {
    var n, bias' := |index|, |index| - count;
    DoublingIsIndex(index, entries, tail, index', entries');
    forall q | first <= q < count ensures EntryOf(index', entries', bias', q) == Entry(Wrap(q * BLOCK_SIZE), Some(blocks[q])) {
      DoublingKeepsEntry(index, entries, tail, bias, count, index', entries', q);
    }
    forall q | count <= q < first + |index'| ensures IsFree(EntryOf(index', entries', bias', q)) {
      DoublingMakesRoom(index, entries, tail, count, index', entries', q);
    }
    RemainderIsUnique(n - 1, 0, n - 1, 2 * n);
  }
}
