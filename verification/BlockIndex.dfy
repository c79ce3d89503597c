/** The block index of an implicit producer: entries that hold a key and a block, a ring of pointers
    to them, and growth by copying the pointers into a ring of twice the size. */
module BlockIndex {
  import opened Modular
  import opened Options
  import opened Wraparound
  import opened BlockPool
  import opened Capacities
  import opened IndexRing

  const IMPLICIT_INITIAL_INDEX_SIZE: nat := 32

  class BlockIndex {
    var nextCapacity: nat
    /** Empty when the allocation in the constructor failed. */
    var index: seq<nat>
    var tail: nat
    var entries: seq<Entry>

    ghost var bias: int
    ghost var exponent: nat
    ghost var first: nat                // oldest block not yet released
    ghost var count: nat                // blocks inserted so far
    ghost var blocks: map<nat, Block>

    ghost predicate Sized()
      reads this
    {
      && exponent <= 64 && |index| == Power(exponent) && nextCapacity == 2 * |index|
      && (forall q: nat :: q in blocks <==> first <= q < count)
    }

    ghost predicate Valid()
      reads this
    {
      if index == [] then first == count == 0 && blocks == map[] && nextCapacity == IMPLICIT_INITIAL_INDEX_SIZE
      else HasRing()
    }

    /** The tail slot has been keyed for block `count`, whose address is still to be stored. */
    ghost predicate Claimed()
      reads this
    {
      && index != [] && Sized() && tail == Slot(bias, count, |index|)
      && Window(index, entries, bias, first, count, count + 1, blocks)
      && EntryOf(index, entries, bias, count).key == Wrap(count * BLOCK_SIZE)
    }

    ghost predicate HasRing()
      reads this
    {
      index != [] && Sized() && RingInv(index, entries, tail, bias, first, count, blocks)
    }

    /** Whether a block can be added, by growing if there is memory for that. */
    ghost predicate HasPlace(memory: bool)
      reads this
    {
      index != [] && (count < first + |index| || memory)
    }

    lemma FitsRing()
      requires Valid()
      ensures first <= count <= first + |index|
    {}

    /** The entry that block q has in the ring. */
    ghost function EntryAt(q: int): nat
      requires index != []
      reads this
    {
      index[Slot(bias, q, |index|)]
    }

    lemma Live(q: nat)
      requires Valid() && first <= q < count
      ensures index != [] && EntryAt(q) < |entries| && q in blocks
      ensures entries[EntryAt(q)] == Entry(Wrap(q * BLOCK_SIZE), Some(blocks[q]))
    {
      assert EntryOf(index, entries, bias, q) == Entry(Wrap(q * BLOCK_SIZE), Some(blocks[q]));
    }

    /** Stepping one slot on. */
    method NextSlot(slot: nat, ghost q: nat) returns (r: nat)
      requires index != [] && slot == Slot(bias, q, |index|)
      ensures r == Slot(bias, q + 1, |index|)
    {
      SlotShift(bias, q, 1, |index|);
      r := (slot + 1) % |index|;
    }

    lemma Domain()
      requires Valid()
      ensures first <= count
      ensures forall q: nat :: q in blocks <==> first <= q < count
    {}

    constructor (memory: bool)
      ensures Valid() && first == count == 0 && blocks == map[]
      ensures index != [] <==> memory
    {
      nextCapacity := IMPLICIT_INITIAL_INDEX_SIZE;
      index, tail, entries := [], 0, [];
      bias, exponent, first, count, blocks := 0, 0, 0, 0, map[];
      new;
      if memory {
        NewBlockIndex();
        LargePowers();
        exponent := 5;
      }
    }

    /** The pointers of the ring in order, from the slot after the tail round to the tail. */
    method CopyFromTail() returns (copy: seq<nat>)
      requires tail < |index|
      ensures |copy| == |index| && forall i | 0 <= i < |index| :: copy[i] == index[(tail + 1 + i) % |index|]
    {
      copy := [];
      var pos := tail;
      while true
        invariant |copy| < |index| && pos == Slot(tail, |copy|, |index|)
        invariant forall i | 0 <= i < |copy| :: copy[i] == index[(tail + 1 + i) % |index|]
        decreases |index| - |copy|
      {
        SlotShift(tail, |copy|, 1, |index|);
        pos := (pos + 1) % |index|;
        assert pos == (tail + 1 + |copy|) % |index|;
        copy := copy + [index[pos]];
        RoundTrip(|copy|);
        if pos == tail {
          break;
        }
      }
    }

    /** Stepping on from the tail comes back to it after exactly as many steps as there are slots. */
    lemma RoundTrip(steps: nat)
      requires tail < |index| && 0 < steps <= |index|
      ensures Slot(tail, steps, |index|) == tail <==> steps == |index|
    {
      RemainderIsUnique(tail, 0, tail, |index|);
      if steps < |index| {
        SlotIsInjective(tail, 0, steps, |index|);
      } else {
        SlotWraps(tail, 0, |index|);
      }
    }

    /** Entries with the invalid key, and pointers to them. */
    method FreshEntries(entryCount: nat) returns (made: seq<Entry>, pointers: seq<nat>)
      ensures |made| == entryCount && forall e | 0 <= e < entryCount :: made[e].key == INVALID_BLOCK_BASE
      ensures |pointers| == entryCount && forall i | 0 <= i < entryCount :: pointers[i] == |entries| + i
    {
      made, pointers := [], [];
      while |made| != entryCount
        invariant |made| <= entryCount && forall e | 0 <= e < |made| :: made[e].key == INVALID_BLOCK_BASE
        invariant |pointers| == |made| && forall i | 0 <= i < |made| :: pointers[i] == |entries| + i
        decreases entryCount - |made|
      {
        var uninitialized: Option<Block> := *;
        pointers := pointers + [|entries| + |made|];
        made := made + [Entry(INVALID_BLOCK_BASE, uninitialized)];
      }
    }

    /** new_block_index, once its memory is there. */
    method NewBlockIndex()
      requires index == [] ==> nextCapacity == IMPLICIT_INITIAL_INDEX_SIZE && entries == []
      requires index != [] ==> tail < |index| && nextCapacity == 2 * |index|
      modifies this`index, this`tail, this`entries, this`nextCapacity
      ensures old(index) == [] ==> RingInv(index, entries, tail, 0, 0, 0, map[]) && |index| == IMPLICIT_INITIAL_INDEX_SIZE
      ensures old(index) != [] ==> IsDoubled(old(index), old(entries), old(tail), index, entries) && tail == |old(index)| - 1
      ensures nextCapacity == 2 * |index|
    {
      if index == [] {
        entries, index := FreshEntries(nextCapacity);
        tail := (0 - 1) % nextCapacity;
      } else {
        var copy := CopyFromTail();
        var made, pointers := FreshEntries(|index|);
        var capacity := |index|;
        RemainderIsUnique(capacity - 1, 0, capacity - 1, nextCapacity);
        index, entries, tail := copy + pointers, entries + made, (capacity - 1) % nextCapacity;
      }
      nextCapacity := 2 * nextCapacity;
    }

    /** Doubling a full ring. */
    method Grow()
      requires HasRing() && count == first + |index| && (count - first) * BLOCK_SIZE < HALF
      modifies this`index, this`tail, this`entries, this`nextCapacity, this`bias, this`exponent
      ensures HasRing() && |index| == 2 * |old(index)|
    {
      ghost var oldIndex, oldEntries, oldTail := index, entries, tail;
      NewBlockIndex();
      DoublingKeepsRing(oldIndex, oldEntries, oldTail, bias, first, count, blocks, index, entries);
      LargePowers();
      if exponent >= 58 {
        LargeCapacity(exponent);
      }
      bias, exponent := |oldIndex| - count, exponent + 1;
    }

    /** Keying an entry for the next block and moving the tail to it. */
    method Claim(newTail: nat, e: nat, blockStart: Index)
      requires HasRing() && count < first + |index| && blockStart == Wrap(count * BLOCK_SIZE)
      requires newTail == Slot(bias, count, |index|) && e == index[newTail]
      modifies this`tail, this`entries
      ensures Claimed() && e == index[tail]
    {
      WindowKeeps(index, entries, bias, first, count, count + 1, blocks, count, entries[e].(key := blockStart));
      entries := entries[e := entries[e].(key := blockStart)];
      tail := newTail;
    }

    /** insert_block_index_entry: the slot after the tail, in a ring twice the size if it is taken. */
    method InsertEntry(blockStart: Index, canAlloc: bool, memory: bool) returns (entry: Option<nat>)
      requires Valid() && blockStart == Wrap(count * BLOCK_SIZE) && (count - first) * BLOCK_SIZE < HALF
      modifies this`index, this`tail, this`entries, this`nextCapacity, this`bias, this`exponent
      ensures entry.Some? <==> old(HasPlace(canAlloc && memory))
      ensures index == [] <==> old(index) == []
      ensures entry.None? ==> Valid() && index == old(index) && tail == old(tail) && entries == old(entries)
      ensures entry.None? ==> nextCapacity == old(nextCapacity)
      ensures entry.Some? ==> Claimed() && entry.value == index[tail]
      ensures entry.Some? ==> |index| == Resized(|old(index)|, count - first)
    {
      if index == [] {
        return None;
      }
      var newTail := (tail + 1) % |index|;
      RoomAhead(index, entries, tail, bias, first, count, blocks);
      var e := index[newTail];
      if entries[e].key == INVALID_BLOCK_BASE || entries[e].value == None {
        Claim(newTail, e, blockStart);
        return Some(e);
      }
      if !canAlloc || !memory {
        return None;
      }
      Grow();
      newTail := (tail + 1) % |index|;
      RoomAhead(index, entries, tail, bias, first, count, blocks);
      e := index[newTail];
      Claim(newTail, e, blockStart);
      return Some(e);
    }

    /** Storing the block that the claimed entry is for. */
    method Fill(entry: nat, block: Block)
      requires Claimed() && entry == index[tail]
      modifies this`entries, this`count, this`blocks
      ensures Valid() && count == old(count) + 1 && blocks == old(blocks)[old(count) := block]
    {
      WindowKeeps(index, entries, bias, first, count, count + 1, blocks, count, entries[entry].(value := Some(block)));
      entries := entries[entry := entries[entry].(value := Some(block))];
      blocks, count := blocks[count := block], count + 1;
    }

    /** rewind_block_index_tail. */
    method Rewind(ghost q: int)
      requires index != [] && tail == Slot(bias, q, |index|)
      modifies this`tail
      ensures tail == Slot(bias, q - 1, |index|)
    {
      SlotShift(bias, q, -1, |index|);
      tail := (tail - 1) % |index|;
    }

    /** Giving a claimed entry up. */
    method Abandon(entry: nat)
      requires Claimed() && entry == index[tail]
      modifies this`entries, this`tail
      ensures Valid()
    {
      WindowKeeps(index, entries, bias, first, count, count + 1, blocks, count, entries[entry].(value := None));
      Rewind(count);
      entries := entries[entry := entries[entry].(value := None)];
    }

    /** get_block_index_index_for_index: from the tail slot, whose key is that of block `m`, to the slot of
        the block that element `at` is in. */
    method SlotFor(i: Index, ghost at: nat, ghost m: nat) returns (slot: nat)
      requires index != [] && Sized() && IsIndex(index, entries) && i == Wrap(at)
      requires tail == Slot(bias, m, |index|) && EntryOf(index, entries, bias, m).key == Wrap(m * BLOCK_SIZE)
      requires -HALF <= (at / BLOCK_SIZE - m) * BLOCK_SIZE < HALF
      ensures slot == Slot(bias, at / BLOCK_SIZE, |index|)
    {
      var base := BlockBase(i);
      var tailBase := entries[index[tail]].key;
      KeyIsValid(m);
      assert tailBase != INVALID_BLOCK_BASE;
      BlockBaseIsFloor(at);
      CapacityDividesRange(exponent);
      LookupIsExact(bias, at / BLOCK_SIZE, m, |index|);
      slot := LookupSlot(tail, tailBase, base, |index|);
    }

    /** The lookup of a consumer, with the assertion that the source makes about what it found. */
    method Lookup(i: Index, ghost at: nat) returns (slot: nat)
      requires Valid() && first <= at / BLOCK_SIZE < count && i == Wrap(at) && (count - first) * BLOCK_SIZE <= HALF
      ensures index != [] && slot == Slot(bias, at / BLOCK_SIZE, |index|) < |index| && index[slot] < |entries|
      ensures entries[index[slot]] == Entry(BlockBase(i), Some(blocks[at / BLOCK_SIZE]))
    {
      ghost var q := at / BLOCK_SIZE;
      assert EntryOf(index, entries, bias, count - 1).key == Wrap((count - 1) * BLOCK_SIZE);
      assert EntryOf(index, entries, bias, q) == Entry(Wrap(q * BLOCK_SIZE), Some(blocks[q]));
      slot := SlotFor(i, at, count - 1);
      BlockBaseIsFloor(at);
      assert FloorBase(at) == q * BLOCK_SIZE;
      assert entries[index[slot]].key == BlockBase(i) && entries[index[slot]].value != None;
    }

    /** The oldest block leaves the index. */
    method Retire(entry: nat)
      requires Valid() && first < count && index != [] && entry == EntryAt(first)
      modifies this`entries, this`first, this`blocks
      ensures Valid() && first == old(first) + 1 && blocks == old(blocks) - {old(first)}
    {
      ReleaseKeepsRing(index, entries, tail, bias, first, count, blocks, entries[entry].(value := None));
      entries := entries[entry := entries[entry].(value := None)];
      blocks, first := blocks - {first}, first + 1;
    }

    // ---- Rollback of enqueue_bulk ----------------------------------------------------

    /** Blocks [start, count) are being taken out again: the values of the first `undone` are null already,
        and the tail has moved back as many slots. */
    ghost predicate Undoing(start: nat, undone: nat)
      reads this
    {
      && index != [] && Sized() && start + undone <= count
      && Emptying(index, entries, bias, first, start, count, undone, blocks)
      && tail == Slot(bias, count - 1 - undone, |index|)
    }

    lemma BeginUndo(start: nat)
      requires Valid() && first <= start < count
      ensures Undoing(start, 0)
    {
      forall q | start <= q < count ensures EntryOf(index, entries, bias, q).key == Wrap(q * BLOCK_SIZE) {
        Live(q);
      }
    }

    method UndoOne(ghost start: nat, ghost undone: nat, i: Index)
      requires Undoing(start, undone) && start + undone < count && i == Wrap((start + undone) * BLOCK_SIZE)
      requires (count - first) * BLOCK_SIZE <= HALF
      modifies this`entries, this`tail
      ensures Undoing(start, undone + 1)
    {
      ghost var q := start + undone;
      EmptyingKey(index, entries, bias, first, start, count, undone, blocks, count - 1 - undone);
      EmptyOneMore(index, entries, bias, first, start, count, undone, blocks);
      var slot := SlotFor(i, q * BLOCK_SIZE, count - 1 - undone);
      var entry := index[slot];
      hide Emptying, Power;
      entries := entries[entry := entries[entry].(value := None)];
      Rewind(count - 1 - undone);
    }

    ghost method EndUndo(start: nat)
      requires start <= count && Undoing(start, count - start)
      modifies this`count, this`blocks
      ensures Valid() && count == start && blocks == (map q | q in old(blocks) && q < start :: old(blocks)[q])
    {
      count, blocks := start, map q | q in blocks && q < start :: blocks[q];
    }
  }
}
