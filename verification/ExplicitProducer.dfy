/** A producer of the explicit kind, used by one call at a time: what it holds is a plain sequence.

    It keeps its blocks for ever, in a circle, and uses the oldest again once all its flags say that its
    elements have been read. */
module ExplicitProducer {
  import opened BlockPool
  import opened BlockStorage
  import opened Claims
  import opened IndexRing
  import opened Options
  import opened Wraparound
  import Capacities
  import ExplicitIndex
  import Fifo

  // ---- Flags -------------------------------------------------------------------------

  /** The flags of a block run backwards: flag 31 - k says whether element k has been read. */
  ghost predicate FlagsOf(flags: map<Block, seq<bool>>, b: Block, q: nat, head: nat) {
    b in flags && |flags[b]| == BLOCK_SIZE && forall i | 0 <= i < BLOCK_SIZE :: flags[b][i] <==> q * BLOCK_SIZE + (BLOCK_SIZE - 1 - i) < head
  }

  ghost predicate FlagsLaw(flags: map<Block, seq<bool>>, blocks: map<nat, Block>, head: nat) {
    forall q | q in blocks :: FlagsOf(flags, blocks[q], q, head)
  }

  /** `count` flags from element `at` on. */
  function Flagged(flags: seq<bool>, at: nat, count: nat): (r: seq<bool>)
    requires |flags| == BLOCK_SIZE && at % BLOCK_SIZE + count <= BLOCK_SIZE
  {
    seq(BLOCK_SIZE, i requires 0 <= i < BLOCK_SIZE => if BLOCK_SIZE - at % BLOCK_SIZE - count <= i < BLOCK_SIZE - at % BLOCK_SIZE then true else flags[i])
  }

  /** Flagging what has been read of the head block. */
  lemma FlaggingKeeps(flags: map<Block, seq<bool>>, blocks: map<nat, Block>, out: set<Block>, head: nat, count: nat)
    requires FlagsLaw(flags, blocks, head) && OwnLaw(blocks, out) && head / BLOCK_SIZE in blocks
    requires head % BLOCK_SIZE + count <= BLOCK_SIZE
    ensures var b := blocks[head / BLOCK_SIZE];
            b in flags && |flags[b]| == BLOCK_SIZE && FlagsLaw(flags[b := Flagged(flags[b], head, count)], blocks, head + count)
  {
    var b := blocks[head / BLOCK_SIZE];
    assert FlagsOf(flags, b, head / BLOCK_SIZE, head);
    var flags' := flags[b := Flagged(flags[b], head, count)];
    forall q | q in blocks ensures FlagsOf(flags', blocks[q], q, head + count) {
      assert FlagsOf(flags, blocks[q], q, head);
      if q != head / BLOCK_SIZE {
        FarBlock(head, count, q);
      }
    }
  }

  lemma FarBlock(head: nat, count: nat, q: nat)
    requires q != head / BLOCK_SIZE && head % BLOCK_SIZE + count <= BLOCK_SIZE
    ensures (q + 1) * BLOCK_SIZE <= head || head + count <= q * BLOCK_SIZE
  {}

  /** All flags are set exactly when every element of the block number has been read. */
  lemma AllFlagged(flags: map<Block, seq<bool>>, b: Block, q: nat, head: nat)
    requires FlagsOf(flags, b, q, head)
    ensures (forall i | 0 <= i < BLOCK_SIZE :: flags[b][i]) <==> (q + 1) * BLOCK_SIZE <= head
  {
    assert flags[b][0] <==> q * BLOCK_SIZE + (BLOCK_SIZE - 1) < head;
  }

  /** A block whose flags have been reset, for elements that are not there yet. */
  lemma ResetKeepsFlags(flags: map<Block, seq<bool>>, blocks: map<nat, Block>, head: nat, count: nat, b: Block)
    requires FlagsLaw(flags, blocks, head) && head <= count * BLOCK_SIZE && b !in blocks.Values
    ensures FlagsLaw(flags[b := seq(BLOCK_SIZE, _ => false)], blocks[count := b], head)
  {
    var flags', blocks' := flags[b := seq(BLOCK_SIZE, _ => false)], blocks[count := b];
    forall q | q in blocks' ensures FlagsOf(flags', blocks'[q], q, head) {
      if q != count {
        assert FlagsOf(flags, blocks[q], q, head);
        assert blocks[q] in blocks.Values;
      }
    }
  }

  // ---- The circle --------------------------------------------------------------------

  ghost predicate Circle(next: map<Block, Option<Block>>, blocks: map<nat, Block>, low: nat, count: nat) {
    && Chained(next, blocks, low, count)
    && (low < count ==> low in blocks && count - 1 in blocks && blocks[count - 1] in next && next[blocks[count - 1]] == Some(blocks[low]))
  }

  /** Taking the oldest block as the newest turns the circle by one. */
  lemma TurnKeepsCircle(next: map<Block, Option<Block>>, blocks: map<nat, Block>, low: nat, count: nat)
    requires Circle(next, blocks, low, count) && low < count && count !in blocks
    ensures Circle(next, (blocks - {low})[count := blocks[low]], low + 1, count + 1)
  {
    var blocks' := (blocks - {low})[count := blocks[low]];
    forall q | low + 1 <= q < count + 1 - 1 ensures LinksTo(next, blocks', q) {
      if q < count - 1 {
        assert LinksTo(next, blocks, q);
      }
    }
    if low + 1 < count {
      assert LinksTo(next, blocks, low);
    }
  }

  /** Where the pointers of a new block and of the one before it go. */
  function Inserted(next: map<Block, Option<Block>>, tail: Option<Block>, b: Block): map<Block, Option<Block>> {
    if tail.None? || tail.value !in next then next[b := Some(b)] else next[b := next[tail.value]][tail.value := Some(b)]
  }

  lemma InsertKeepsCircle<T>(out: set<Block>, blocks: map<nat, Block>, low: nat, count: nat, b: Block,
                             tail: Option<Block>,
                             cells: map<Block, seq<Option<T>>>, dequeued: map<Block, nat>, next: map<Block, Option<Block>>,
                             cells1: map<Block, seq<Option<T>>>, dequeued1: map<Block, nat>, next1: map<Block, Option<Block>>)
    requires Circle(next, blocks, low, count) && OwnLaw(blocks, out) && b !in out && count !in blocks && low <= count
    requires MemoryKept(out, cells, dequeued, next, cells1, dequeued1, next1)
    requires if low < count then tail == Some(blocks[count - 1]) else tail == None
    ensures Circle(Inserted(next1, tail, b), blocks[count := b], low, count + 1)
  {
    var next', blocks' := Inserted(next1, tail, b), blocks[count := b];
    forall q | low <= q < count ensures LinksTo(next', blocks', q) {
      if q < count - 1 {
        assert LinksTo(next, blocks, q);
      }
    }
  }

  // ---- Starting blocks ---------------------------------------------------------------

  lemma TurnKeepsOwn(blocks: map<nat, Block>, out: set<Block>, low: nat, count: nat)
    requires OwnLaw(blocks, out) && low in blocks && count !in blocks
    ensures OwnLaw((blocks - {low})[count := blocks[low]], out)
    ensures (blocks - {low})[count := blocks[low]].Values == blocks.Values
    ensures blocks[low] !in (blocks - {low}).Values
  {
    var blocks' := (blocks - {low})[count := blocks[low]];
    forall c ensures c in blocks'.Values <==> c in blocks.Values {
      if c in blocks.Values {
        var q :| q in blocks && blocks[q] == c;
        assert if q == low then blocks'[count] == c else blocks'[q] == c;
      }
    }
  }

  /** A block all of whose elements have been read holds nothing under its next number either. */
  lemma TurnKeepsCells<T>(cells: map<Block, seq<Option<T>>>, blocks: map<nat, Block>, head: nat, contents: seq<T>,
                          low: nat, count: nat)
    requires CellsLaw(cells, blocks, head, contents) && low in blocks && (low + 1) * BLOCK_SIZE <= head
    requires head + |contents| <= count * BLOCK_SIZE
    ensures CellsLaw(cells, (blocks - {low})[count := blocks[low]], head, contents)
  {
    var blocks' := (blocks - {low})[count := blocks[low]];
    assert BlockHolds(cells, blocks[low], low, head, contents);
    forall q | q in blocks' ensures BlockHolds(cells, blocks'[q], q, head, contents) {
      if q != count {
        assert BlockHolds(cells, blocks[q], q, head, contents);
      }
    }
  }

  lemma FewerFlags(flags: map<Block, seq<bool>>, blocks: map<nat, Block>, head: nat, low: nat)
    requires FlagsLaw(flags, blocks, head)
    ensures FlagsLaw(flags, blocks - {low}, head)
  {}

  lemma NewKeepsCells<T>(cells: map<Block, seq<Option<T>>>, blocks: map<nat, Block>, out: set<Block>, head: nat,
                         contents: seq<T>, count: nat, b: Block,
                         dequeued: map<Block, nat>, next: map<Block, Option<Block>>,
                         cells': map<Block, seq<Option<T>>>, dequeued': map<Block, nat>, next': map<Block, Option<Block>>)
    requires CellsLaw(cells, blocks, head, contents) && OwnLaw(blocks, out)
    requires MemoryKept(out, cells, dequeued, next, cells', dequeued', next')
    requires b !in out && count !in blocks && head + |contents| <= count * BLOCK_SIZE && IsBlank(cells', b)
    requires |cells'[b]| == BLOCK_SIZE
    ensures CellsLaw(cells', blocks[count := b], head, contents) && OwnLaw(blocks[count := b], out + {b})
  {
    var blocks' := blocks[count := b];
    forall q | q in blocks' ensures BlockHolds(cells', blocks'[q], q, head, contents) {
      if q != count {
        assert BlockHolds(cells, blocks[q], q, head, contents);
      }
    }
  }

  lemma NewestIsOut(blocks: map<nat, Block>, out: set<Block>, count: nat)
    requires OwnLaw(blocks, out)
    ensures count > 0 && count - 1 in blocks ==> blocks[count - 1] in out
    ensures forall b | b in blocks.Values :: b in out
  {}

  lemma WroteOneOwn<T>(out: set<Block>, own: set<Block>, b: Block, cells: map<Block, seq<Option<T>>>,
                       dequeued: map<Block, nat>,
                       next: map<Block, Option<Block>>, cells': map<Block, seq<Option<T>>>)
    requires MemoryKept(out, cells, dequeued, next, cells, dequeued, next) && b in own && WroteOnly(b, cells, cells')
    ensures OthersUntouched(out, own, cells, dequeued, out, own, cells', dequeued)
  {}

  /** The flags that wrapped indices name are those of the true ones. */
  lemma SameFlags(flags: seq<bool>, at: Index, head: nat, count: nat)
    requires |flags| == BLOCK_SIZE && at % BLOCK_SIZE == head % BLOCK_SIZE && head % BLOCK_SIZE + count <= BLOCK_SIZE
    ensures Flagged(flags, at, count) == Flagged(flags, head, count)
  {}

  /** The head is in a block of the circle while there is an element left. */
  lemma HeadInside(low: nat, head: nat, count: nat, tail: nat)
    requires low * BLOCK_SIZE <= head < tail <= count * BLOCK_SIZE
    ensures low <= head / BLOCK_SIZE < count
  {}

  lemma WroteNothingOf<T>(b: Block, cells: map<Block, seq<Option<T>>>)
    ensures WroteOnly(b, cells, cells)
  {}

  /** The blocks of the circle together hold no more than the limit, nor more than half the index range. */
  ghost predicate SpanLaw(low: nat, count: nat, limit: Option<nat>) {
    (count - low) * BLOCK_SIZE <= HALF && (limit.Some? ==> (count - low) * BLOCK_SIZE <= limit.value)
  }

  /** The check leaves room for the whole circle, because only its oldest block has been read from. */
  lemma RoomForSpan(head: nat, low: nat, count: nat, limit: Option<nat>)
    requires HasRoom(head, (count + 1) * BLOCK_SIZE, limit) && (count > low ==> head < (low + 1) * BLOCK_SIZE) && low <= count
    requires limit.Some? ==> limit.value % BLOCK_SIZE == 0
    requires count == low ==> head <= count * BLOCK_SIZE
    ensures SpanLaw(low, count + 1, limit)
  {}

  class ExplicitProducer<T(==)> {
    const parent: BlockPool<T>
    const limit: Option<nat>
    const index: ExplicitIndex.ExplicitIndex

    var tailIndex: Index
    var headIndex: Index
    var dequeueOptimisticCount: Index
    var dequeueOvercommit: Index
    var tailBlock: Option<Block>
    var emptyFlags: map<Block, seq<bool>>      // of its own blocks

    ghost var head: nat
    ghost var contents: seq<T>

    ghost function Tail(): nat
      reads `head, `contents
    {
      head + |contents|
    }

    ghost function Blocks(): map<nat, Block>
      reads index
    {
      index.blocks
    }

    ghost function Own(): set<Block>
      reads index
    {
      index.blocks.Values
    }

    /** The laws while the first `moved` elements have been moved out but not yet flagged. */
    ghost predicate Laws(moved: nat)
      requires moved <= |contents|
      reads `tailIndex, `head, `contents, `emptyFlags, `tailBlock, parent, index
    {
      && parent.Valid() && index.Valid()
      && (limit.Some? ==> limit.value % BLOCK_SIZE == 0 && limit.value < INDEX_RANGE)
      && tailIndex == Wrap(Tail()) && index.low * BLOCK_SIZE <= head && Tail() <= index.count * BLOCK_SIZE && |contents| < HALF
      && SpanLaw(index.low, index.count, limit)
      && OwnLaw(index.blocks, parent.out)
      && CellsLaw(parent.cells, index.blocks, head + moved, contents[moved..])
      && FlagsLaw(emptyFlags, index.blocks, head)
      && Circle(parent.next, index.blocks, index.low, index.count)
      && (if index.count == 0 then tailBlock == None else index.count - 1 in index.blocks && tailBlock == Some(index.blocks[index.count - 1]))
    }

    ghost predicate CountersLaw()
      reads `headIndex, `dequeueOptimisticCount, `dequeueOvercommit, `head
    {
      headIndex == Wrap(head) && Sub(dequeueOptimisticCount, dequeueOvercommit) == headIndex
    }

    ghost predicate Valid()
      reads this, parent, index
    {
      Laws(0) && CountersLaw() && index.count == Published(Tail())
    }

    /** With one call at a time the sub-queue never grows beyond its limit, although a block used again is not
        checked against it. */
    lemma WithinLimit()
      requires Valid()
      ensures limit.Some? ==> |contents| <= limit.value
    {}

    /** `half` is what pr_blockIndexSize starts as: half the initial index size, or half of the pool size
        rounded up to a power of two if that is more. */
    constructor (parent: BlockPool<T>, limit: Option<nat>, half: nat, ghost e: nat, memory: bool)
      requires parent.Valid() && (limit.Some? ==> limit.value % BLOCK_SIZE == 0 && limit.value < INDEX_RANGE)
      requires half == Capacities.Power(e) && 2 * half * BLOCK_SIZE <= HALF
      ensures Valid() && contents == [] && Own() == {} && this.parent == parent && this.limit == limit && fresh(index)
    {
      this.parent, this.limit := parent, limit;
      tailIndex, headIndex, dequeueOptimisticCount, dequeueOvercommit := 0, 0, 0, 0;
      tailBlock, emptyFlags, head, contents := None, map[], 0, [];
      index := new ExplicitIndex.ExplicitIndex(half, e, memory);
    }

    /** is_empty: all flags are set. */
    method IsEmpty(block: Block) returns (r: bool)
      requires block in emptyFlags && |emptyFlags[block]| == BLOCK_SIZE
      ensures r <==> forall i | 0 <= i < BLOCK_SIZE :: emptyFlags[block][i]
    {
      var i := 0;
      while i < BLOCK_SIZE
        invariant 0 <= i <= BLOCK_SIZE && forall j | 0 <= j < i :: emptyFlags[block][j]
      {
        if !emptyFlags[block][i] {
          return false;
        }
        i := i + 1;
      }
      return true;
    }

    /** set_many_empty, and with one element set_empty. */
    method SetManyEmpty(block: Block, at: Index, count: nat)
      requires block in emptyFlags && |emptyFlags[block]| == BLOCK_SIZE && at % BLOCK_SIZE + count <= BLOCK_SIZE
      modifies this`emptyFlags
      ensures emptyFlags == old(emptyFlags)[block := Flagged(old(emptyFlags)[block], at, count)]
    {
      var i := BLOCK_SIZE - 1 - at % BLOCK_SIZE - count + 1;
      var flags := emptyFlags[block];
      var j := 0;
      while j != count
        invariant 0 <= j <= count && |flags| == BLOCK_SIZE
        invariant forall k | 0 <= k < BLOCK_SIZE :: flags[k] == (if i <= k < i + j then true else emptyFlags[block][k])
        decreases count - j
      {
        flags := flags[i + j := true];
        j := j + 1;
      }
      assert flags == Flagged(emptyFlags[block], at, count);
      emptyFlags := emptyFlags[block := flags];
    }

    /** The block ahead of the newest is the oldest. */
    lemma AheadIsOldest()
      requires Laws(0) && index.count > 0
      ensures tailBlock.Some? && tailBlock.value in parent.next && index.low in index.blocks
      ensures parent.next[tailBlock.value] == Some(index.blocks[index.low])
      ensures FlagsOf(emptyFlags, index.blocks[index.low], index.low, head)
      ensures index.blocks[index.low] in parent.out && tailBlock.value in parent.out
    {
      index.Domain();
    }

    /** Whether the oldest block can be used again. */
    ghost predicate CanReuse()
      reads `head, index
    {
      index.count > 0 && (index.low + 1) * BLOCK_SIZE <= head
    }

    /** Starting on the oldest block again, all its elements having been read. */
    method ReuseBlock(ahead: Block)
      requires Laws(0) && index.count > 0 && Tail() == index.count * BLOCK_SIZE && (index.low + 1) * BLOCK_SIZE <= head
      requires index.low in index.blocks && ahead == index.blocks[index.low]
      modifies this`tailBlock, this`emptyFlags, index
      ensures Laws(0) && index.count == old(index.count) + 1 && Own() == old(Own())
    {
      hide CellsLaw, OwnLaw, Circle, FlagsLaw, MemoryKept, parent.Valid, index.Valid;
      ghost var low, count, blocks := index.low, index.count, index.blocks;
      index.Domain();
      TurnKeepsOwn(blocks, parent.out, low, count);
      TurnKeepsCells(parent.cells, blocks, head, contents[0..], low, count);
      TurnKeepsCircle(parent.next, blocks, low, count);
      FewerFlags(emptyFlags, blocks, head, low);
      ResetKeepsFlags(emptyFlags, blocks - {low}, head, count, ahead);
      tailBlock := Some(ahead);
      emptyFlags := emptyFlags[ahead := seq(BLOCK_SIZE, _ => false)];
      HasRing();
      index.AddBlock(tailIndex, ahead, false);
    }

    lemma HasRing()
      requires index.Valid() && index.count > 0
      ensures index.entries != [] && index.slotsUsed > 0
    {}

    lemma SpanIsSmall()
      requires Laws(0)
      ensures Tail() - head < HALF && index.low <= index.count && tailIndex == Wrap(Tail())
    {
      index.Domain();
    }

    lemma IndexIsValid()
      requires Laws(0)
      ensures index.Valid()
    {}

    lemma PoolIsValid()
      requires Laws(0)
      ensures parent.Valid()
    {}

    /** Whether the index has a slot for one more block, by growing if need be. */
    ghost predicate HasSlots(memory: bool)
      reads index
    {
      (index.entries != [] && index.slotsUsed < index.size) || memory
    }

    /** The pointers of a new block put between the newest and the oldest. */
    method LinkBlock(newBlock: Block)
      requires parent.Valid() && newBlock in parent.out && (tailBlock.Some? ==> tailBlock.value in parent.out)
      modifies parent`next
      ensures parent.Valid() && parent.next == Inserted(old(parent.next), tailBlock, newBlock)
    {
      parent.Unwritten();
      if tailBlock == None {
        parent.SetNext(newBlock, Some(newBlock));
      } else {
        parent.SetNext(newBlock, parent.next[tailBlock.value]);
        parent.SetNext(tailBlock.value, Some(newBlock));
      }
    }

    /** A block from the pool, put between the newest and the oldest. */
    method InsertBlock(canAlloc: bool, blockMemory: bool) returns (ok: bool)
      requires SpanLaw(index.low, index.count + 1, limit)
      requires Laws(0) && Tail() == index.count * BLOCK_SIZE && index.entries != [] && index.slotsUsed < index.size
      modifies this`tailBlock, this`emptyFlags, parent, index
      ensures Laws(0) && ok == old(parent.HasBlock(canAlloc && blockMemory))
      ensures index.count == old(index.count) + (if ok then 1 else 0)
      ensures !ok ==> index.blocks == old(index.blocks) && tailBlock == old(tailBlock)
      ensures OthersUntouched(old(parent.out), old(Own()), old(parent.cells), old(parent.elementsCompletelyDequeued),
                              parent.out, Own(), parent.cells, parent.elementsCompletelyDequeued)
    {
      hide CellsLaw, OwnLaw, Circle, FlagsLaw, MemoryKept, OthersUntouched, WroteOnly, parent.Valid, index.Valid;
      ghost var cells0, dequeued0, next0, out0 := parent.cells, parent.elementsCompletelyDequeued, parent.next, parent.out;
      ghost var low, count, blocks := index.low, index.count, index.blocks;
      index.Domain();
      parent.Unwritten();
      NewestIsOut(blocks, out0, count);
      var newBlock := parent.RequisitionReset(canAlloc, blockMemory);
      ghost var cells1, dequeued1, next1 := parent.cells, parent.elementsCompletelyDequeued, parent.next;
      if newBlock == None {
        WrittenIsOwn(Own(), 0, out0, cells0, dequeued0, next0, cells1, dequeued1, next1, cells1);
        return false;
      }
      var b := newBlock.value;
      NewKeepsCells(cells0, blocks, out0, head, contents[0..], count, b, dequeued0, next0, cells1, dequeued1, next1);
      InsertKeepsCircle(out0, blocks, low, count, b, tailBlock, cells0, dequeued0, next0, cells1, dequeued1, next1);
      ResetKeepsFlags(emptyFlags, blocks, head, count, b);
      WroteNothingOf(b, cells1);
      TakenIsOwn(blocks, count, b, out0, cells0, dequeued0, next0, cells1, dequeued1, next1, cells1);
      emptyFlags := emptyFlags[b := seq(BLOCK_SIZE, _ => false)];
      LinkBlock(b);
      tailBlock := newBlock;
      index.AddBlock(tailIndex, b, true);
      return true;
    }

    /** A new block for the tail: room below the limit, a slot in the index, and a block from the pool. */
    method AddBlock(canAlloc: bool, indexMemory: bool, blockMemory: bool) returns (ok: bool)
      requires Laws(0) && CountersLaw() && Tail() == index.count * BLOCK_SIZE && !CanReuse()
      modifies this`tailBlock, this`emptyFlags, parent, index
      ensures Laws(0)
      ensures ok <==> HasRoom(head, Tail() + BLOCK_SIZE, limit) && old(HasSlots(canAlloc && indexMemory)) && old(parent.HasBlock(canAlloc && blockMemory))
      ensures index.count == old(index.count) + (if ok then 1 else 0)
      ensures !ok ==> index.blocks == old(index.blocks) && tailBlock == old(tailBlock)
      ensures OthersUntouched(old(parent.out), old(Own()), old(parent.cells), old(parent.elementsCompletelyDequeued),
                              parent.out, Own(), parent.cells, parent.elementsCompletelyDequeued)
    {
      hide CellsLaw, OwnLaw, Circle, FlagsLaw, OthersUntouched, parent.Valid, index.Valid;
      SpanIsSmall();
      FullIsExact(head, Tail(), limit);
      Unchanged();
      if IsFull(headIndex, tailIndex, limit) {
        return false;
      }
      HasUsed();
      RoomForSpan(head, index.low, index.count, limit);
      if index.entries == [] || index.slotsUsed == index.size {
        if !canAlloc {
          return false;
        }
        var grown := GrowIndex(indexMemory);
        if !grown {
          return false;
        }
      }
      ok := InsertBlock(canAlloc, blockMemory);
    }

    lemma HasUsed()
      requires index.Valid()
      ensures index.entries != [] ==> index.slotsUsed <= index.size
      ensures index.entries == [] ==> index.slotsUsed == 0
      ensures index.size > 0
    {}

    lemma Unchanged()
      requires parent.Valid()
      ensures OthersUntouched(parent.out, Own(), parent.cells, parent.elementsCompletelyDequeued,
                              parent.out, Own(), parent.cells, parent.elementsCompletelyDequeued)
    {
      parent.Unwritten();
    }

    /** new_block_index, as enqueue calls it: all slots in use stay exposed. */
    method GrowIndex(memory: bool) returns (ok: bool)
      requires Laws(0) && (index.entries == [] || index.slotsUsed == index.size) && SpanLaw(index.low, index.count + 1, limit)
      modifies index`entries, index`front, index`size, index`nextFront, index`bias, index`exponent
      ensures Laws(0) && ok == memory
      ensures ok ==> index.entries != [] && index.slotsUsed < index.size
    {
      hide CellsLaw, OwnLaw, Circle, FlagsLaw, parent.Valid;
      index.MayDouble();
      ok := index.NewBlockIndex(memory, index.slotsUsed);
    }

    /** Constructing one element at the tail and publishing it. */
    method Place(x: T)
      requires Laws(0) && CountersLaw() && index.count == Published(Tail() + 1) && |contents| + 1 < HALF
      modifies this`tailIndex, this`contents, parent`cells
      ensures Valid() && contents == old(contents) + [x]
      ensures WroteOnly(tailBlock.value, old(parent.cells), parent.cells) && tailBlock.value in Own()
    {
      hide CellsLaw, FlagsLaw, Circle, parent.Valid, index.Valid;
      TailPlace(head, Tail());
      AddIsWrapped(Tail(), 1);
      hide Wrap, Add;
      index.Domain();
      assert contents[0..] == contents;
      AppendKeepsCells(parent.cells, index.blocks, head, contents, x);
      parent.Unwritten();
      assert tailBlock.value in Own();
      parent.Construct(tailBlock.value, tailIndex % BLOCK_SIZE, x);
      tailIndex := Add(tailIndex, 1);
      contents := contents + [x];
      assert contents[0..] == contents;
    }

    /** Starting a block for the element at the tail. */
    method StartBlock(canAlloc: bool, indexMemory: bool, blockMemory: bool) returns (ok: bool)
      requires Laws(0) && CountersLaw() && Tail() == index.count * BLOCK_SIZE
      modifies this`tailBlock, this`emptyFlags, parent, index
      ensures Laws(0)
      ensures ok <==> old(CanReuse()) || (HasRoom(head, Tail() + BLOCK_SIZE, limit) && old(HasSlots(canAlloc && indexMemory)) && old(parent.HasBlock(canAlloc && blockMemory)))
      ensures index.count == old(index.count) + (if ok then 1 else 0)
      ensures !ok ==> index.blocks == old(index.blocks) && tailBlock == old(tailBlock)
      ensures OthersUntouched(old(parent.out), old(Own()), old(parent.cells), old(parent.elementsCompletelyDequeued),
                              parent.out, Own(), parent.cells, parent.elementsCompletelyDequeued)
    {
      hide CellsLaw, OwnLaw, Circle, FlagsLaw, OthersUntouched, HasRoom, parent.Valid, index.Valid;
      Unchanged();
      if tailBlock != None {
        AheadIsOldest();
        var ahead := parent.next[tailBlock.value].value;
        AllFlagged(emptyFlags, ahead, index.low, head);
        var empty := IsEmpty(ahead);
        if empty {
          ReuseBlock(ahead);
          return true;
        }
      }
      ok := AddBlock(canAlloc, indexMemory, blockMemory);
    }

    /** enqueue. */
    method Enqueue(x: T, canAlloc: bool, indexMemory: bool, blockMemory: bool) returns (ok: bool)
      requires Valid() && |contents| + 1 < HALF
      modifies this`tailIndex, this`tailBlock, this`emptyFlags, this`contents, parent, index
      ensures Valid() && head == old(head)
      ensures contents == old(contents) + if ok then [x] else []
      ensures !ok ==> index.blocks == old(index.blocks) && tailBlock == old(tailBlock)
      ensures ok <==> || old(Tail()) % BLOCK_SIZE != 0 || old(CanReuse())
                      || (HasRoom(head, old(Tail()) + BLOCK_SIZE, limit) && old(HasSlots(canAlloc && indexMemory)) && old(parent.HasBlock(canAlloc && blockMemory)))
      ensures OthersUntouched(old(parent.out), old(Own()), old(parent.cells), old(parent.elementsCompletelyDequeued),
                              parent.out, Own(), parent.cells, parent.elementsCompletelyDequeued)
    {
      hide CellsLaw, OwnLaw, Circle, FlagsLaw, OthersUntouched, WroteOnly, HasRoom, parent.Valid, index.Valid;
      TailPlace(head, Tail());
      BlockStartsAt(Tail());
      Unchanged();
      if tailIndex % BLOCK_SIZE == 0 {
        ok := StartBlock(canAlloc, indexMemory, blockMemory);
        if !ok {
          return;
        }
      }
      ghost var out1, own1, cells1, dequeued1 := parent.out, Own(), parent.cells, parent.elementsCompletelyDequeued;
      parent.Unwritten();
      Place(x);
      WroteOneOwn(out1, own1, tailBlock.value, cells1, dequeued1, parent.next, parent.cells);
      OthersStayUntouched(old(parent.out), old(Own()), old(parent.cells), old(parent.elementsCompletelyDequeued), out1,
                          own1, cells1, dequeued1,
                          parent.out, Own(), parent.cells, parent.elementsCompletelyDequeued);
      return true;
    }

    // ---- Dequeuing -------------------------------------------------------------------

    /** Moving one element out of its block. */
    method MoveElement(block: Block, i: Index, ghost moved: nat) returns (x: T)
      requires moved < |contents| && Laws(moved) && i == Wrap(head + moved)
      requires (head + moved) / BLOCK_SIZE in index.blocks && block == index.blocks[(head + moved) / BLOCK_SIZE]
      modifies parent`cells
      ensures Laws(moved + 1) && x == contents[moved]
      ensures OthersUntouched(parent.out, Own(), old(parent.cells), parent.elementsCompletelyDequeued,
                              parent.out, Own(), parent.cells, parent.elementsCompletelyDequeued)
    {
      hide CellsLaw, FlagsLaw, Circle, parent.Valid, index.Valid;
      parent.Unwritten();
      RemoveKeepsCells(parent.cells, index.blocks, parent.out, head + moved, contents[moved..]);
      TailPlace(0, head + moved);
      assert contents[moved..][1..] == contents[moved + 1..];
      assert block in Own();
      x := parent.MoveOut(block, i % BLOCK_SIZE);
    }

    /** Flagging `moved` reads of the head block. */
    method FlagBlock(block: Block, at: Index, ghost moved: nat, count: nat)
      requires count == moved <= |contents| && Laws(moved) && at == Wrap(head)
      requires head % BLOCK_SIZE + moved <= BLOCK_SIZE
      requires head / BLOCK_SIZE in index.blocks && block == index.blocks[head / BLOCK_SIZE]
      modifies this`head, this`contents, this`emptyFlags
      ensures head == old(head) + moved && contents == old(contents)[moved..] && Laws(0)
    {
      hide CellsLaw, FlagsLaw, Circle, OwnLaw, parent.Valid, index.Valid;
      TailPlace(0, head);
      FlaggingKeeps(emptyFlags, index.blocks, parent.out, head, moved);
      SameFlags(emptyFlags[block], at, head, count);
      SetManyEmpty(block, at, count);
      head, contents := head + moved, contents[moved..];
      assert contents[0..] == contents;
    }

    /** The claimed element at the head: found through the index, moved out, flagged. */
    method ReadHead(i: Index) returns (x: T)
      requires Laws(0) && contents != [] && i == Wrap(head)
      modifies this`head, this`contents, this`emptyFlags, parent`cells
      ensures x == old(contents)[0] && contents == old(contents)[1..] && head == old(head) + 1 && Laws(0)
      ensures OthersUntouched(parent.out, Own(), old(parent.cells), parent.elementsCompletelyDequeued,
                              parent.out, Own(), parent.cells, parent.elementsCompletelyDequeued)
    {
      hide CellsLaw, FlagsLaw, OwnLaw, Circle, OthersUntouched, parent.Valid, index.Valid;
      HeadBlock(head, 1);
      HeadInside(index.low, head, index.count, Tail());
      var slot := index.Lookup(i, head);
      var block := index.entries[slot].block;
      x := MoveElement(block, i, 0);
      FlagBlock(block, i, 1, 1);
    }

    /** dequeue. */
    method Dequeue() returns (r: Option<T>)
      requires Valid()
      modifies this`headIndex, this`dequeueOptimisticCount, this`head, this`contents, this`emptyFlags, parent`cells
      ensures Valid()
      ensures if old(contents) == [] then r == None && contents == [] && head == old(head)
              else r == Some(old(contents)[0]) && contents == old(contents)[1..] && head == old(head) + 1
      ensures OthersUntouched(parent.out, Own(), old(parent.cells), parent.elementsCompletelyDequeued,
                              parent.out, Own(), parent.cells, parent.elementsCompletelyDequeued)
    {
      hide CellsLaw, FlagsLaw, OwnLaw, Circle, OthersUntouched, Wrap, Add, Sub, CircularLess, Published, Laws, parent.Valid, index.Valid;
      SpanIsSmall();
      CircularLessIsLess(head, Tail());
      AddIsWrapped(head, 1);
      AddingToBoth(dequeueOptimisticCount, dequeueOvercommit, 1);
      PoolIsValid();
      Unchanged();
      var tail, overcommit := tailIndex, dequeueOvercommit;
      if CircularLess(Sub(dequeueOptimisticCount, overcommit), tail) {
        var myDequeueCount := dequeueOptimisticCount;
        dequeueOptimisticCount := Add(dequeueOptimisticCount, 1);
        tail := tailIndex;
        if CircularLess(Sub(myDequeueCount, overcommit), tail) {
          var i := headIndex;
          headIndex := Add(headIndex, 1);
          var x := ReadHead(i);
          return Some(x);
        } else {
          assert false;     // giving the ticket back takes another consumer
        }
      }
      return None;
    }

    /** The inner loop of dequeue_bulk: the elements of one block. */
    method ReadElements(block: Block, from: Index, stop: Index, ghost k: nat) returns (items: seq<T>)
      requires Laws(0) && k <= |contents| && head % BLOCK_SIZE + k <= BLOCK_SIZE
      requires head / BLOCK_SIZE in index.blocks && block == index.blocks[head / BLOCK_SIZE]
      requires from == Wrap(head) && stop == Wrap(head + k)
      modifies parent`cells
      ensures Laws(k) && items == contents[..k]
      ensures OthersUntouched(parent.out, Own(), old(parent.cells), parent.elementsCompletelyDequeued,
                              parent.out, Own(), parent.cells, parent.elementsCompletelyDequeued)
    {
      hide CellsLaw, FlagsLaw, OwnLaw, Circle, OthersUntouched, Wrap, parent.Valid, index.Valid;
      Unchanged();
      var i := from;
      items := [];
      ghost var cells0 := parent.cells;
      while i != stop
        invariant |items| <= k && i == Wrap(head + |items|) && items == contents[..|items|]
        invariant Laws(|items|)
        invariant OthersUntouched(parent.out, Own(), cells0, parent.elementsCompletelyDequeued,
                                  parent.out, Own(), parent.cells, parent.elementsCompletelyDequeued)
        decreases k - |items|
      {
        ghost var cells1 := parent.cells;
        HeadBlock(head, |items|);
        AddIsWrapped(head + |items|, 1);
        var x := MoveElement(block, i, |items|);
        OthersStayUntouched(parent.out, Own(), cells0, parent.elementsCompletelyDequeued, parent.out, Own(), cells1,
                            parent.elementsCompletelyDequeued,
                            parent.out, Own(), parent.cells, parent.elementsCompletelyDequeued);
        items := items + [x];
        i := Add(i, 1);
      }
      SameWithinRange(head + |items|, head + k);
    }

    /** One turn of dequeue_bulk: what is claimed of one block. */
    method ReadBlock(slot: nat, from: Index, stop: Index, ghost k: nat) returns (items: seq<T>)
      requires Laws(0) && k <= |contents| && head % BLOCK_SIZE + k <= BLOCK_SIZE && contents != []
      requires index.size > 0 && slot == Slot(index.bias, head / BLOCK_SIZE, index.size)
      requires from == Wrap(head) && stop == Wrap(head + k)
      modifies this`head, this`contents, this`emptyFlags, parent`cells
      ensures Laws(0) && head == old(head) + k && items == old(contents)[..k] && contents == old(contents)[k..]
      ensures OthersUntouched(parent.out, Own(), old(parent.cells), parent.elementsCompletelyDequeued,
                              parent.out, Own(), parent.cells, parent.elementsCompletelyDequeued)
    {
      hide CellsLaw, FlagsLaw, OwnLaw, Circle, OthersUntouched, Wrap, Sub, parent.Valid, index.Valid;
      HeadBlock(head, k);
      HeadInside(index.low, head, index.count, Tail());
      index.Live(head / BLOCK_SIZE);
      var block := index.entries[slot].block;
      items := ReadElements(block, from, stop, k);
      ExactCount(head, k);
      FlagBlock(block, from, k, Sub(stop, from));
    }

    /** One turn of dequeue_bulk's loop: up to the end of the block, or of what was claimed. */
    method ReadTurn(slot: nat, from: Index, last: Index, ghost end: nat)
      returns (items: seq<T>, endIndex: Index, nextSlot: nat)
      requires Laws(0) && contents != [] && head <= end <= Tail() && end < head + HALF
      requires index.size > 0 && slot == Slot(index.bias, head / BLOCK_SIZE, index.size)
      requires from == Wrap(head) && last == Wrap(end)
      modifies this`head, this`contents, this`emptyFlags, parent`cells
      ensures Laws(0) && head == StopAt(old(head), end) && endIndex == Wrap(head)
      ensures head >= old(head) && |items| == head - old(head) <= |old(contents)| && items == old(contents)[..|items|]
      ensures contents == old(contents)[|items|..]
      ensures index.size > 0 && nextSlot == Slot(index.bias, old(head) / BLOCK_SIZE + 1, index.size)
      ensures OthersUntouched(parent.out, Own(), old(parent.cells), parent.elementsCompletelyDequeued,
                              parent.out, Own(), parent.cells, parent.elementsCompletelyDequeued)
    {
      hide CellsLaw, FlagsLaw, OwnLaw, Circle, OthersUntouched, Wrap, Add, BlockBase, CircularLess, StopAt, FloorBase, Laws;
      ghost var q, stop := head / BLOCK_SIZE, StopAt(head, end);
      StopIsExact(head, end);
      StopFits(head, end);
      endIndex := Add(BlockBase(from), BLOCK_SIZE);
      if CircularLess(last, endIndex) {
        endIndex := last;
      }
      items := ReadBlock(slot, from, endIndex, stop - head);
      IndexIsValid();
      nextSlot := index.NextSlot(slot, q);
    }

    /** The loop of dequeue_bulk over the blocks that `actual` claimed elements lie in. */
    method ReadBlocks(firstIndex: Index, actual: Index) returns (items: seq<T>)
      requires Laws(0) && contents != [] && actual <= |contents| && firstIndex == Wrap(head)
      modifies this`head, this`contents, this`emptyFlags, parent`cells
      ensures Laws(0) && head == old(head) + actual && items == old(contents)[..actual]
      ensures contents == old(contents)[actual..]
      ensures OthersUntouched(parent.out, Own(), old(parent.cells), parent.elementsCompletelyDequeued,
                              parent.out, Own(), parent.cells, parent.elementsCompletelyDequeued)
    {
      hide CellsLaw, FlagsLaw, OwnLaw, Circle, OthersUntouched, Wrap, Add, BlockBase, CircularLess, StopAt, FloorBase, parent.Valid, index.Valid;
      ghost var h, c, end := head, contents, head + actual;
      ghost var cells0 := parent.cells;
      HeadInside(index.low, head, index.count, Tail());
      HasUsed();
      Unchanged();
      SpanIsSmall();
      AddIsWrapped(head, actual);
      var i := firstIndex;
      items := [];
      var slot := index.Lookup(i, head);
      hide Laws;
      while true
        invariant |items| <= actual && head == h + |items| && contents == c[|items|..] && items == c[..|items|]
        invariant contents != []
        invariant items == [] || |items| < actual
        invariant i == Wrap(head) && Laws(0)
        invariant index.size > 0 && slot == Slot(index.bias, head / BLOCK_SIZE, index.size)
        invariant OthersUntouched(parent.out, Own(), cells0, parent.elementsCompletelyDequeued,
                                  parent.out, Own(), parent.cells, parent.elementsCompletelyDequeued)
        decreases actual - |items|
      {
        ghost var cells1 := parent.cells;
        StopFits(head, end);
        var read;
        read, i, slot := ReadTurn(slot, i, Add(firstIndex, actual), end);
        OthersStayUntouched(parent.out, Own(), cells0, parent.elementsCompletelyDequeued, parent.out, Own(), cells1,
                            parent.elementsCompletelyDequeued,
                            parent.out, Own(), parent.cells, parent.elementsCompletelyDequeued);
        items := items + read;
        if i == Add(firstIndex, actual) {
          SameWithinRange(head, end);
          break;
        }
      }
    }

    /** dequeue_bulk. */
    method DequeueBulk(max: Index) returns (items: seq<T>)
      requires Valid()
      modifies this`headIndex, this`dequeueOptimisticCount, this`head, this`contents, this`emptyFlags, parent`cells
      ensures Valid()
      ensures var n := if max < |old(contents)| then max else |old(contents)|;
              items == old(contents)[..n] && contents == old(contents)[n..] && head == old(head) + n
      ensures OthersUntouched(parent.out, Own(), old(parent.cells), parent.elementsCompletelyDequeued,
                              parent.out, Own(), parent.cells, parent.elementsCompletelyDequeued)
    {
      hide CellsLaw, FlagsLaw, OwnLaw, Circle, OthersUntouched, Wrap, Add, Sub, CircularLess, Published, Laws, parent.Valid, index.Valid;
      SpanIsSmall();
      PoolIsValid();
      Unchanged();
      DifferenceIsExact(Tail(), head);
      var tail, overcommit := tailIndex, dequeueOvercommit;
      var desiredCount := Sub(tail, Sub(dequeueOptimisticCount, overcommit));
      if CircularLess(0, desiredCount) {
        desiredCount := if desiredCount < max then desiredCount else max;
        AddIsWrapped(head, desiredCount);
        AddingToBoth(dequeueOptimisticCount, dequeueOvercommit, desiredCount);
        var myDequeueCount := dequeueOptimisticCount;
        dequeueOptimisticCount := Add(dequeueOptimisticCount, desiredCount);
        tail := tailIndex;
        var actualCount := Sub(tail, Sub(myDequeueCount, overcommit));
        if CircularLess(0, actualCount) {
          actualCount := if desiredCount < actualCount then desiredCount else actualCount;
          if actualCount < desiredCount {
            assert false;   // giving part of the ticket back takes another consumer
          }
          var firstIndex := headIndex;
          headIndex := Add(headIndex, actualCount);
          items := ReadBlocks(firstIndex, actualCount);
          return;
        } else {
          assert false;     // as does giving all of it back
        }
      }
      return [];
    }

    // ---- Any mix of operations -------------------------------------------------------

    /** The operations one after the other, memory being there or not each time: every result is that of a plain
        sequence. */
    method Mix(ops: seq<Fifo.Op<T>>, canAlloc: bool, indexMemory: nat -> bool, blockMemory: nat -> bool)
      returns (results: seq<Fifo.Result<T>>)
      requires Valid() && |contents| + |ops| < HALF && forall i | 0 <= i < |ops| :: CanCall(ops[i])
      modifies this, parent, index
      ensures Valid() && Fifo.Explains(old(contents), ops, results)
      ensures contents == Fifo.Replay(old(contents), ops, results)
    {
      hide Laws, CountersLaw, OthersUntouched, Published;
      results := [];
      var i := 0;
      assert ops[..0] == [];
      while i < |ops|
        invariant i <= |ops| && Valid() && |contents| <= |old(contents)| + i
        invariant Fifo.Explains(old(contents), ops[..i], results)
        invariant contents == Fifo.Replay(old(contents), ops[..i], results)
      {
        var result := Call(ops[i], canAlloc, indexMemory(i), blockMemory(i));
        Fifo.Extends(old(contents), ops, i, results, result);
        results := results + [result];
        i := i + 1;
      }
      assert ops[..|ops|] == ops;
    }

    /** One operation. */
    method Call(op: Fifo.Op<T>, canAlloc: bool, indexMemory: bool, blockMemory: bool) returns (result: Fifo.Result<T>)
      requires Valid() && CanCall(op) && |contents| + 1 < HALF
      modifies this, parent, index
      ensures Valid() && Fifo.Fits(old(contents), op, result) && contents == Fifo.After(old(contents), op, result)
      ensures |contents| <= |old(contents)| + 1
    {
      hide Laws, CountersLaw, OthersUntouched, Published;
      match op {
        case Put(x) =>
          var ok := Enqueue(x, canAlloc, indexMemory, blockMemory);
          result := Fifo.Stored(ok);
        case Take =>
          var r := Dequeue();
          result := Fifo.Got(if r.Some? then [r.value] else []);
        case TakeBulk(max) =>
          var items := DequeueBulk(max);
          result := Fifo.Got(items);
      }
    }
  }

  /** The modelled operations: enqueue_bulk is not among them. */
  predicate CanCall<T>(op: Fifo.Op<T>) {
    match op
    case PutBulk(_) => false
    case TakeBulk(max) => max < INDEX_RANGE
    case _ => true
  }
}
