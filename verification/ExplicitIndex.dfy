/** The block index of an explicit producer: a ring of slots, each with the base index and the address of a
    block, and growth by copying the slots in use into a ring of twice the size. */
module ExplicitIndex {
  import opened BlockPool
  import opened Capacities
  import opened Claims
  import opened IndexRing
  import opened Modular
  import opened Wraparound

  datatype BlockSlot = BlockSlot(base: Index, block: Block)

  /** Block numbers [low, count) are in their slots. */
  ghost predicate InSlots(entries: seq<BlockSlot>, bias: int, low: nat, count: nat, blocks: map<nat, Block>) {
    && 0 < |entries| && count <= low + |entries|
    && forall q | low <= q < count :: HasSlot(entries, bias, q, blocks)
  }

  ghost predicate HasSlot(entries: seq<BlockSlot>, bias: int, q: nat, blocks: map<nat, Block>) {
    0 < |entries| && q in blocks && entries[Slot(bias, q, |entries|)] == BlockSlot(Wrap(q * BLOCK_SIZE), blocks[q])
  }

  /** Writing the slot of the next block number, once the oldest has left if need be, harms no other. */
  lemma WriteKeepsSlots(entries: seq<BlockSlot>, bias: int, low: nat, count: nat, blocks: map<nat, Block>, b: Block)
    requires 0 < |entries| && low <= count < low + |entries| && forall q | low <= q < count :: HasSlot(entries, bias, q, blocks)
    ensures InSlots(entries[Slot(bias, count, |entries|) := BlockSlot(Wrap(count * BLOCK_SIZE), b)], bias, low, count + 1, blocks[count := b])
  {
    var entries', blocks' := entries[Slot(bias, count, |entries|) := BlockSlot(Wrap(count * BLOCK_SIZE), b)], blocks[count := b];
    forall q | low <= q < count + 1 ensures HasSlot(entries', bias, q, blocks') {
      if q < count {
        assert HasSlot(entries, bias, q, blocks);
        SlotIsInjective(bias, q, count, |entries|);
      }
    }
  }

  /** The slots in use in order from the oldest, and then any slots, in a ring of twice the size. */
  lemma CopyKeepsSlots(entries: seq<BlockSlot>, bias: int, low: nat, count: nat, blocks: map<nat, Block>,
                       entries': seq<BlockSlot>)
    requires InSlots(entries, bias, low, count, blocks) && low <= count && |entries'| == 2 * |entries|
    requires forall j | 0 <= j < count - low :: entries'[j] == entries[Slot(bias, low + j, |entries|)]
    ensures InSlots(entries', 0 - low, low, count, blocks)
  {
    var bias' := 0 - low;
    forall q | low <= q < count ensures HasSlot(entries', bias', q, blocks) {
      assert HasSlot(entries, bias, q, blocks);
      RemainderIsUnique(q - low, 0, q - low, |entries'|);
      assert entries'[q - low] == entries[Slot(bias, low + (q - low), |entries|)];
    }
  }

  class ExplicitIndex {
    /** Empty while there is no index; `size` is then half of what the first one will have. */
    var entries: seq<BlockSlot>
    var front: int                 // the newest slot, exposed to consumers
    var slotsUsed: nat
    var size: nat
    var nextFront: nat

    ghost var bias: int
    ghost var exponent: nat
    ghost var low: nat
    ghost var count: nat
    ghost var blocks: map<nat, Block>

    ghost predicate Valid()
      reads this
    {
      && size == Power(exponent) && size * BLOCK_SIZE <= HALF && (entries == [] ==> 2 * size * BLOCK_SIZE <= HALF)
      && low + slotsUsed == count && (count > 0 ==> slotsUsed > 0) && (forall q: nat :: q in blocks <==> low <= q < count)
      && (if entries == [] then count == 0
          else && |entries| == size && InSlots(entries, bias, low, count, blocks)
               && nextFront == Slot(bias, count, size) && (count > 0 ==> front == Slot(bias, count - 1, size)))
    }

    /** `half` is half the size of the index to start with. */
    constructor (half: nat, ghost e: nat, memory: bool)
      requires half == Power(e) && 2 * half * BLOCK_SIZE <= HALF
      ensures Valid() && low == count == 0 && blocks == map[] && (entries != [] <==> memory)
    {
      entries, front, slotsUsed, size, nextFront := [], -1, 0, half, 0;
      bias, exponent, low, count, blocks := 0, e, 0, 0, map[];
      new;
      var ok := NewBlockIndex(memory, 0);
    }

    /** The slots in use, from the oldest on. */
    method CopyUsed() returns (copy: seq<BlockSlot>)
      requires Valid() && slotsUsed > 0
      ensures |copy| == slotsUsed && forall j | 0 <= j < slotsUsed :: copy[j] == entries[Slot(bias, low + j, size)]
    {
      assert slotsUsed <= size;
      hide Slot, InSlots, Capacities.Power;
      SlotShift(bias, count, 0 - slotsUsed, size);
      var i := (nextFront - slotsUsed) % size;
      copy := [];
      while true
        invariant |copy| < slotsUsed && i == Slot(bias, low + |copy|, size)
        invariant forall j | 0 <= j < |copy| :: copy[j] == entries[Slot(bias, low + j, size)]
        decreases slotsUsed - |copy|
      {
        copy := copy + [entries[i]];
        SlotShift(bias, low + |copy| - 1, 1, size);
        i := (i + 1) % size;
        if low + |copy| < count {
          SlotIsInjective(bias, low + |copy|, count, size);
        }
        if i == nextFront {
          break;
        }
      }
    }

    /** What freshly allocated slots hold. */
    method Uninitialized(n: nat) returns (slots: seq<BlockSlot>)
      ensures |slots| == n
    {
      slots := [];
      while |slots| < n
        invariant |slots| <= n
      {
        var slot: BlockSlot := *;
        slots := slots + [slot];
      }
    }

    /** new_block_index. */
    method NewBlockIndex(memory: bool, exposed: nat) returns (ok: bool)
      requires Valid() && exposed == slotsUsed && (memory ==> 2 * size * BLOCK_SIZE <= HALF)
      modifies this`entries, this`front, this`size, this`nextFront, this`bias, this`exponent
      ensures Valid() && ok == memory
      ensures if ok then |entries| == size == 2 * old(size) else entries == old(entries) && size == old(size)
    {
      if !memory {
        return false;
      }
      var copy: seq<BlockSlot> := [];
      if slotsUsed != 0 {
        copy := CopyUsed();
      }
      var junk := Uninitialized(2 * size - |copy|);
      if entries != [] {
        CopyKeepsSlots(entries, bias, low, count, blocks, copy + junk);
      }
      size := 2 * size;
      exponent := exponent + 1;
      bias := 0 - low;
      RemainderIsUnique(slotsUsed, 0, slotsUsed, size);
      if count > 0 {
        RemainderIsUnique(slotsUsed - 1, 0, slotsUsed - 1, size);
      }
      front, nextFront := exposed - 1, |copy|;
      entries := copy + junk;
      return true;
    }

    lemma Domain()
      requires Valid()
      ensures low <= count && (count > 0 ==> low < count) && (forall q: nat :: q in blocks <==> low <= q < count)
      ensures entries == [] ==> count == 0
    {}

    /** Putting the next block into its slot and exposing it; a block used again gives up its old number first. */
    method AddBlock(base: Index, block: Block, isNew: bool)
      requires Valid() && entries != [] && base == Wrap(count * BLOCK_SIZE)
      requires if isNew then slotsUsed < size else slotsUsed > 0
      modifies this`entries, this`front, this`slotsUsed, this`nextFront, this`low, this`count, this`blocks
      ensures Valid() && count == old(count) + 1 && low == old(low) + (if isNew then 0 else 1)
      ensures blocks == (if isNew then old(blocks) else old(blocks) - {old(low)})[old(count) := block]
      ensures entries != [] && size == old(size)
    {
      if isNew {
        slotsUsed := slotsUsed + 1;
      } else {
        blocks, low := blocks - {low}, low + 1;
      }
      forall q | low <= q < count ensures HasSlot(entries, bias, q, blocks) {
        assert HasSlot(entries, bias, q, old(blocks));
      }
      WriteKeepsSlots(entries, bias, low, count, blocks, block);
      SlotShift(bias, count, 1, size);
      entries := entries[nextFront := BlockSlot(base, block)];
      front := nextFront;
      nextFront := (nextFront + 1) % size;
      blocks, count := blocks[count := block], count + 1;
    }

    /** The lookup of a consumer. */
    method Lookup(i: Index, ghost at: nat) returns (slot: nat)
      requires Valid() && low <= at / BLOCK_SIZE < count && i == Wrap(at)
      ensures entries != [] && slot == Slot(bias, at / BLOCK_SIZE, size) < |entries|
      ensures at / BLOCK_SIZE in blocks && entries[slot] == BlockSlot(BlockBase(i), blocks[at / BLOCK_SIZE])
    {
      ghost var q := at / BLOCK_SIZE;
      assert HasSlot(entries, bias, count - 1, blocks) && HasSlot(entries, bias, q, blocks);
      var headBase := entries[front].base;
      BlockBaseIsFloor(at);
      assert FloorBase(at) == q * BLOCK_SIZE;
      SmallSizes();
      Within(q, count - 1, size);
      LookupIsExact(bias, q, count - 1, size);
      slot := LookupSlot(front, headBase, BlockBase(i), size);
    }

    /** Stepping one slot on. */
    method NextSlot(slot: nat, ghost q: nat) returns (r: nat)
      requires Valid() && slot == Slot(bias, q, size)
      ensures r == Slot(bias, q + 1, size)
    {
      SlotShift(bias, q, 1, size);
      r := (slot + 1) % size;
    }

    lemma Live(q: nat)
      requires Valid() && low <= q < count
      ensures entries != [] && Slot(bias, q, size) < |entries| && q in blocks
      ensures entries[Slot(bias, q, size)] == BlockSlot(Wrap(q * BLOCK_SIZE), blocks[q])
    {
      assert HasSlot(entries, bias, q, blocks);
    }

    /** A full index that there is room for one more block besides is small enough to be doubled. */
    lemma MayDouble()
      requires Valid() && (entries == [] || (slotsUsed == size && (slotsUsed + 1) * BLOCK_SIZE <= HALF))
      ensures 2 * size * BLOCK_SIZE <= HALF
    {
      LargePowers();
      if exponent >= 58 {
        LargeCapacity(exponent);
      } else {
        SmallCapacity(exponent);
      }
    }

    lemma SmallSizes()
      requires Valid()
      ensures INDEX_RANGE % size == 0
    {
      LargePowers();
      if exponent >= 59 {
        LargeCapacity(exponent - 1);
        assert Power(exponent) == 2 * Power(exponent - 1);
      }
      CapacityDividesRange(exponent);
    }
  }
}
