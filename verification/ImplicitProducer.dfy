/** A producer of the implicit kind, used by one call at a time: what it holds is a plain sequence.

    Its counters are the machine's wrapped ones; `head` and `contents` are the history behind them. */
module ImplicitProducer {
  import opened Options
  import opened Wraparound
  import opened BlockPool
  import opened BlockStorage
  import opened Capacities
  import opened Claims
  import opened IndexRing
  import BlockIndex
  import Fifo

  class ImplicitProducer<T(==)> {
    const parent: BlockPool<T>
    const limit: Option<nat>
    const blockIndex: BlockIndex.BlockIndex

    var tailIndex: Index
    var headIndex: Index
    var dequeueOptimisticCount: Index
    var dequeueOvercommit: Index
    var tailBlock: Option<Block>

    ghost var head: nat
    ghost var contents: seq<T>

    ghost function Tail(): nat
      reads `head, `contents
    {
      head + |contents|
    }

    ghost function Blocks(): map<nat, Block>
      reads blockIndex
    {
      blockIndex.blocks
    }

    ghost function Own(): set<Block>
      reads blockIndex
    {
      blockIndex.blocks.Values
    }

    /** The laws while the first `moved` elements have been moved out but not yet counted. */
    ghost predicate Laws(moved: nat)
      requires moved <= |contents|
      reads `tailIndex, `headIndex, `dequeueOptimisticCount, `dequeueOvercommit, `head, `contents, parent, blockIndex
    {
      && parent.Valid() && blockIndex.Valid()
      && (limit.Some? ==> limit.value % BLOCK_SIZE == 0 && limit.value < INDEX_RANGE)
      && tailIndex == Wrap(Tail())
      && blockIndex.first == head / BLOCK_SIZE && Tail() <= blockIndex.count * BLOCK_SIZE && HasRoom(head, blockIndex.count * BLOCK_SIZE, limit)
      && OwnLaw(blockIndex.blocks, parent.out)
      && CellsLaw(parent.cells, blockIndex.blocks, head + moved, contents[moved..])
      && CountLaw(parent.elementsCompletelyDequeued, blockIndex.blocks, head)
    }

    /** What holds also while blocks are being added ahead of the tail. */
    ghost predicate Holds()
      reads `tailIndex, `headIndex, `dequeueOptimisticCount, `dequeueOvercommit, `head, `contents, parent, blockIndex
    {
      && Laws(0)
      && headIndex == Wrap(head) && Sub(dequeueOptimisticCount, dequeueOvercommit) == headIndex
    }

    /** No block beyond those needed, and the tail block is the newest of the live ones. */
    ghost predicate Snug()
      reads this, blockIndex
    {
      && blockIndex.count == Published(Tail())
      && (blockIndex.first < blockIndex.count ==> blockIndex.count - 1 in blockIndex.blocks && tailBlock == Some(blockIndex.blocks[blockIndex.count - 1]))
    }

    ghost predicate Valid()
      reads this, parent, blockIndex
    {
      Holds() && Snug()
    }

    /** The sub-queue never grows beyond its limit, nor to half the index range. */
    lemma WithinLimit()
      requires Valid()
      ensures |contents| < HALF && (limit.Some? ==> |contents| <= limit.value)
    {}

    constructor (parent: BlockPool<T>, limit: Option<nat>, memory: bool)
      requires parent.Valid() && (limit.Some? ==> limit.value % BLOCK_SIZE == 0 && limit.value < INDEX_RANGE)
      ensures Valid() && contents == [] && Own() == {} && this.parent == parent && this.limit == limit
      ensures fresh(blockIndex)
    {
      this.parent, this.limit := parent, limit;
      tailIndex, headIndex, dequeueOptimisticCount, dequeueOvercommit := 0, 0, 0, 0;
      tailBlock, head, contents := None, 0, [];
      blockIndex := new BlockIndex.BlockIndex(memory);
    }

    /** How many slots of the ring are in use when `count` blocks have been inserted. */
    ghost function Used(count: nat): nat
      reads blockIndex`first
    {
      if blockIndex.first <= count then count - blockIndex.first else 0
    }

    /** A place in the index and a block from the pool, or everything as it was. */
    method AllocateBlock(blockStart: Index, canAlloc: bool, indexMemory: bool, blockMemory: bool)
      returns (r: Option<Block>)
      requires Holds() && blockStart == Wrap(blockIndex.count * BLOCK_SIZE)
      requires HasRoom(head, (blockIndex.count + 1) * BLOCK_SIZE, limit)
      modifies parent, blockIndex
      ensures Holds() && blockIndex.first == old(blockIndex.first) && (blockIndex.index == [] <==> old(blockIndex.index) == [])
      ensures r.Some? <==> old(blockIndex.HasPlace(canAlloc && indexMemory)) && old(parent.HasBlock(canAlloc && blockMemory))
      ensures r.None? ==> blockIndex.blocks == old(blockIndex.blocks) && blockIndex.count == old(blockIndex.count) && parent.out == old(parent.out) && parent.next == old(parent.next)
      ensures r.Some? ==> blockIndex.count == old(blockIndex.count) + 1 && blockIndex.blocks == old(blockIndex.blocks)[old(blockIndex.count) := r.value]
      ensures r.Some? ==> r.value !in old(parent.out) && parent.out == old(parent.out) + {r.value}
      ensures r.Some? ==> |blockIndex.index| == Resized(|old(blockIndex.index)|, Used(old(blockIndex.count))) && parent.Spare() == Fewer(old(parent.Spare()))
      ensures MemoryKept(old(parent.out), old(parent.cells), old(parent.elementsCompletelyDequeued), old(parent.next),
                         parent.cells, parent.elementsCompletelyDequeued, parent.next)
    {
      hide Storage, MemoryKept, IsFresh, parent.Valid, blockIndex.Valid, blockIndex.Claimed;
      SpanFits(head, blockIndex.count);
      blockIndex.Domain();
      ghost var cells0, dequeued0, next0, out0 := parent.cells, parent.elementsCompletelyDequeued, parent.next, parent.out;
      parent.Unwritten();
      var entry := blockIndex.InsertEntry(blockStart, canAlloc, indexMemory);
      if entry.None? {
        return None;
      }
      r := parent.RequisitionReset(canAlloc, blockMemory);
      if r.None? {
        blockIndex.Abandon(entry.value);
        return;
      }
      NewBlockKeepsStorage(cells0, dequeued0, out0, blockIndex.blocks, head, contents, blockIndex.count, r.value, next0,
                           parent.cells, parent.elementsCompletelyDequeued, parent.next);
      blockIndex.Fill(entry.value, r.value);
    }

    /** A block for the elements from `blockStart` on, unless the limit forbids it. */
    method TakeBlock(blockStart: Index, canAlloc: bool, indexMemory: bool, blockMemory: bool) returns (r: Option<Block>)
      requires Holds() && blockStart == Wrap(blockIndex.count * BLOCK_SIZE)
      modifies parent, blockIndex
      ensures Holds() && blockIndex.first == old(blockIndex.first) && (blockIndex.index == [] <==> old(blockIndex.index) == [])
      ensures r.Some? <==> (&& HasRoom(head, (old(blockIndex.count) + 1) * BLOCK_SIZE, limit)
                            && old(blockIndex.HasPlace(canAlloc && indexMemory))
                            && old(parent.HasBlock(canAlloc && blockMemory)))
      ensures r.None? ==> blockIndex.blocks == old(blockIndex.blocks) && blockIndex.count == old(blockIndex.count) && parent.out == old(parent.out) && parent.next == old(parent.next)
      ensures r.Some? ==> blockIndex.count == old(blockIndex.count) + 1 && blockIndex.blocks == old(blockIndex.blocks)[old(blockIndex.count) := r.value]
      ensures r.Some? ==> r.value !in old(parent.out) && parent.out == old(parent.out) + {r.value}
      ensures r.Some? ==> |blockIndex.index| == Resized(|old(blockIndex.index)|, Used(old(blockIndex.count))) && parent.Spare() == Fewer(old(parent.Spare()))
      ensures MemoryKept(old(parent.out), old(parent.cells), old(parent.elementsCompletelyDequeued), old(parent.next),
                         parent.cells, parent.elementsCompletelyDequeued, parent.next)
    {
      parent.Unwritten();
      FullIsExact(head, blockIndex.count * BLOCK_SIZE, limit);
      if IsFull(headIndex, blockStart, limit) {
        return None;
      }
      r := AllocateBlock(blockStart, canAlloc, indexMemory, blockMemory);
    }

    /** Constructing one element at the tail and publishing it. */
    method Place(x: T)
      requires Holds() && blockIndex.count == Published(Tail() + 1)
      requires tailBlock == Some(blockIndex.blocks[blockIndex.count - 1])
      modifies this`tailIndex, this`contents, parent`cells
      ensures Valid() && contents == old(contents) + [x]
      ensures WroteOnly(tailBlock.value, old(parent.cells), parent.cells)
    {
      hide CellsLaw, CountLaw, parent.Valid, blockIndex.Valid;
      TailPlace(head, Tail());
      AddIsWrapped(Tail(), 1);
      hide Wrap, Add;
      blockIndex.Domain();
      AppendKeepsStorage(parent.cells, parent.elementsCompletelyDequeued, parent.out, blockIndex.blocks, head,
                         contents, x);
      parent.Construct(tailBlock.value, tailIndex % BLOCK_SIZE, x);
      tailIndex := Add(tailIndex, 1);
      contents := contents + [x];
    }

    /** enqueue. */
    method Enqueue(x: T, canAlloc: bool, indexMemory: bool, blockMemory: bool) returns (ok: bool)
      requires Valid()
      modifies this`tailIndex, this`tailBlock, this`contents, parent, blockIndex
      ensures Valid() && head == old(head)
      ensures contents == old(contents) + if ok then [x] else []
      ensures !ok ==> blockIndex.blocks == old(blockIndex.blocks)
      ensures ok <==> old(Tail()) % BLOCK_SIZE != 0 ||
                      (&& HasRoom(head, old(Tail()) + BLOCK_SIZE, limit)
                       && old(blockIndex.HasPlace(canAlloc && indexMemory))
                       && old(parent.HasBlock(canAlloc && blockMemory)))
      ensures OthersUntouched(old(parent.out), old(Own()), old(parent.cells), old(parent.elementsCompletelyDequeued),
                              parent.out, Own(), parent.cells, parent.elementsCompletelyDequeued)
    {
      hide CellsLaw, CountLaw, MemoryKept, WroteOnly, OthersUntouched, parent.Valid, blockIndex.Valid;
      TailPlace(head, Tail());
      BlockStartsAt(Tail());
      ghost var cells0, dequeued0, next0, out0 := parent.cells, parent.elementsCompletelyDequeued, parent.next, parent.out;
      ghost var blocks0 := blockIndex.blocks;
      blockIndex.Domain();
      parent.Unwritten();
      if tailIndex % BLOCK_SIZE == 0 {
        var newBlock := TakeBlock(tailIndex, canAlloc, indexMemory, blockMemory);
        ghost var cells1, dequeued1, next1 := parent.cells, parent.elementsCompletelyDequeued, parent.next;
        if newBlock.None? {
          WrittenIsOwn(Own(), 0, out0, cells0, dequeued0, next0, cells1, dequeued1, next1, cells1);
          return false;
        }
        tailBlock := newBlock;
        Place(x);
        TakenIsOwn(blocks0, old(blockIndex.count), newBlock.value, out0, cells0, dequeued0, next0, cells1, dequeued1,
                   next1, parent.cells);
        return true;
      }
      assert tailBlock.value in Own();
      Place(x);
      WrittenIsOwn(Own(), tailBlock.value, out0, cells0, dequeued0, next0, cells0, dequeued0, next0, parent.cells);
      return true;
    }

    lemma Unchanged()
      requires parent.Valid()
      ensures OthersUntouched(parent.out, Own(), parent.cells, parent.elementsCompletelyDequeued,
                              parent.out, Own(), parent.cells, parent.elementsCompletelyDequeued)
    {
      parent.Unwritten();
    }

    /** Moving one element out of its block. */
    method MoveElement(block: Block, i: Index, ghost moved: nat) returns (x: T)
      requires moved < |contents| && Laws(moved) && i == Wrap(head + moved)
      requires (head + moved) / BLOCK_SIZE in blockIndex.blocks
      requires block == blockIndex.blocks[(head + moved) / BLOCK_SIZE]
      modifies parent`cells
      ensures Laws(moved + 1) && x == contents[moved]
      ensures OthersUntouched(parent.out, Own(), old(parent.cells), parent.elementsCompletelyDequeued,
                              parent.out, Own(), parent.cells, parent.elementsCompletelyDequeued)
    {
      hide CountLaw, CellsLaw, parent.Valid, blockIndex.Valid;
      var b := blockIndex.blocks[(head + moved) / BLOCK_SIZE];
      parent.Unwritten();
      RemoveKeepsCells(parent.cells, blockIndex.blocks, parent.out, head + moved, contents[moved..]);
      TailPlace(0, head + moved);
      assert contents[moved..][1..] == contents[moved + 1..];
      assert block in Own();
      x := parent.MoveOut(block, i % BLOCK_SIZE);
    }

    /** Counting `moved` reads of the head block and, when they were its last, taking it out of the index and
        handing it back. */
    method FinishBlock(entry: nat, block: Block, ghost moved: nat, count: nat)
      requires count == moved <= |contents| && Laws(moved)
      requires head % BLOCK_SIZE + moved <= BLOCK_SIZE && head / BLOCK_SIZE < blockIndex.count
      requires blockIndex.index != [] && entry == blockIndex.EntryAt(head / BLOCK_SIZE)
      requires head / BLOCK_SIZE in blockIndex.blocks && block == blockIndex.blocks[head / BLOCK_SIZE]
      modifies this`head, this`contents, parent, blockIndex`entries, blockIndex`first, blockIndex`blocks
      ensures head == old(head) + moved && contents == old(contents)[moved..] && Laws(0)
      ensures blockIndex.blocks == if old(head) % BLOCK_SIZE + moved < BLOCK_SIZE then old(blockIndex.blocks) else old(blockIndex.blocks) - {old(head) / BLOCK_SIZE}
      ensures parent.cells == old(parent.cells)
      ensures OthersUntouched(old(parent.out), old(Own()), old(parent.cells), old(parent.elementsCompletelyDequeued),
                              parent.out, Own(), parent.cells, parent.elementsCompletelyDequeued)
    {
      hide CellsLaw, CountLaw, OwnLaw, OthersUntouched, Emptied, parent.Valid, blockIndex.Valid;
      ghost var q, blocks0, out0 := head / BLOCK_SIZE, blockIndex.blocks, parent.out;
      ghost var cells0, dequeued0 := parent.cells, parent.elementsCompletelyDequeued;
      blockIndex.Domain();
      parent.Unwritten();
      HeadBlock(head, moved);
      CountingKeeps(dequeued0, blocks0, out0, head, moved);
      ReleasedIsOwn(blocks0, q, out0, cells0, dequeued0, cells0, dequeued0[block := dequeued0[block] + moved]);
      var isEmpty := parent.SetManyEmpty(block, count);
      if isEmpty {
        DrainedIsBlank(cells0, blocks0, q, head + moved, contents[moved..]);
        blockIndex.Retire(entry);
        parent.Release(block);
      }
      head, contents := head + moved, contents[moved..];
    }

    /** The claimed element at the head: found through the index, moved out, counted. */
    method ReadHead(i: Index) returns (x: T)
      requires Laws(0) && contents != [] && i == Wrap(head)
      modifies this`head, this`contents, parent, blockIndex`entries, blockIndex`first, blockIndex`blocks
      ensures x == old(contents)[0] && contents == old(contents)[1..] && head == old(head) + 1 && Laws(0)
      ensures forall q | q in Blocks() :: q in old(Blocks()) && Blocks()[q] == old(Blocks())[q]
      ensures OthersUntouched(old(parent.out), old(Own()), old(parent.cells), old(parent.elementsCompletelyDequeued),
                              parent.out, Own(), parent.cells, parent.elementsCompletelyDequeued)
    {
      hide CountLaw, CellsLaw, OwnLaw, OthersUntouched, parent.Valid, blockIndex.Valid;
      ghost var blocks0, out0, cells0, dequeued0 := blockIndex.blocks, parent.out, parent.cells, parent.elementsCompletelyDequeued;
      SpanFits(head, blockIndex.count);
      HeadBlock(head, 1);
      blockIndex.Domain();
      var slot := blockIndex.Lookup(i, head);
      var entry := blockIndex.index[slot];
      var block := blockIndex.entries[entry].value.value;
      x := MoveElement(block, i, 0);
      ghost var cells1 := parent.cells;
      FinishBlock(entry, block, 1, 1);
      OthersStayUntouched(out0, blocks0.Values, cells0, dequeued0, out0, blocks0.Values, cells1, dequeued0,
                          parent.out, Own(), parent.cells, parent.elementsCompletelyDequeued);
    }

    /** dequeue. */
    method Dequeue() returns (r: Option<T>)
      requires Valid()
      modifies this`headIndex, this`dequeueOptimisticCount, this`head, this`contents, parent, blockIndex`entries, blockIndex`first, blockIndex`blocks
      ensures Valid()
      ensures if old(contents) == [] then r == None && contents == [] && head == old(head)
              else r == Some(old(contents)[0]) && contents == old(contents)[1..] && head == old(head) + 1
      ensures forall q | q in Blocks() :: q in old(Blocks()) && Blocks()[q] == old(Blocks())[q]
      ensures OthersUntouched(old(parent.out), old(Own()), old(parent.cells), old(parent.elementsCompletelyDequeued),
                              parent.out, Own(), parent.cells, parent.elementsCompletelyDequeued)
    {
      hide CountLaw, CellsLaw, OwnLaw, OthersUntouched, Wrap, Add, Sub, CircularLess, parent.Valid, blockIndex.Valid;
      CircularLessIsLess(head, Tail());
      AddIsWrapped(head, 1);
      blockIndex.Domain();
      AddingToBoth(dequeueOptimisticCount, dequeueOvercommit, 1);
      Unchanged();
      var tail, overcommit := tailIndex, dequeueOvercommit;
      if CircularLess(Sub(dequeueOptimisticCount, overcommit), tail) {
        var myDequeueCount := dequeueOptimisticCount;
        dequeueOptimisticCount := Add(dequeueOptimisticCount, 1);
        tail := tailIndex;
        if CircularLess(Sub(myDequeueCount, overcommit), tail) {
          var i := headIndex;
          headIndex := Add(headIndex, 1);
          var x := ReadHead(i);
          blockIndex.Domain();
          assert blockIndex.first < blockIndex.count ==> blockIndex.count - 1 in Blocks();
          return Some(x);
        } else {
          assert false;     // giving the ticket back takes another consumer
        }
      }
      return None;
    }

    /** The inner loop of dequeue_bulk: the elements of one block. */
    method ReadElements(block: Block, from: Index, stop: Index, ghost k: nat) returns (items: seq<T>)
      requires Laws(0) && k <= |contents| && head % BLOCK_SIZE + k <= BLOCK_SIZE
      requires head / BLOCK_SIZE in blockIndex.blocks && block == blockIndex.blocks[head / BLOCK_SIZE]
      requires from == Wrap(head) && stop == Wrap(head + k)
      modifies parent`cells
      ensures Laws(k) && items == contents[..k]
      ensures OthersUntouched(parent.out, Own(), old(parent.cells), parent.elementsCompletelyDequeued,
                              parent.out, Own(), parent.cells, parent.elementsCompletelyDequeued)
    {
      hide CountLaw, CellsLaw, OwnLaw, OthersUntouched, Wrap, parent.Valid, blockIndex.Valid;
      Unchanged();
      var i := from;
      items := [];
      ghost var cells0 := parent.cells;
      while i != stop
        invariant |items| <= k && i == Wrap(head + |items|) && items == contents[..|items|]
        invariant Laws(|items|)
        invariant OthersUntouched(parent.out, Own(), cells0, parent.elementsCompletelyDequeued,
                                  parent.out, Own(), parent.cells, parent.elementsCompletelyDequeued)
        decreases k - |items|
      {
        ghost var cells1 := parent.cells;
        HeadBlock(head, |items|);
        AddIsWrapped(head + |items|, 1);
        var x := MoveElement(block, i, |items|);
        OthersStayUntouched(parent.out, Own(), cells0, parent.elementsCompletelyDequeued, parent.out, Own(), cells1,
                            parent.elementsCompletelyDequeued,
                            parent.out, Own(), parent.cells, parent.elementsCompletelyDequeued);
        items := items + [x];
        i := Add(i, 1);
      }
      SameWithinRange(head + |items|, head + k);
    }

    /** One turn of dequeue_bulk: what is claimed of one block. */
    method ReadBlock(slot: nat, from: Index, stop: Index, ghost k: nat) returns (items: seq<T>)
      requires Laws(0) && k <= |contents| && head % BLOCK_SIZE + k <= BLOCK_SIZE && contents != []
      requires blockIndex.index != [] && slot == Slot(blockIndex.bias, head / BLOCK_SIZE, |blockIndex.index|)
      requires from == Wrap(head) && stop == Wrap(head + k)
      modifies this`head, this`contents, parent, blockIndex`entries, blockIndex`first, blockIndex`blocks
      ensures Laws(0) && head == old(head) + k && items == old(contents)[..k] && contents == old(contents)[k..]
      ensures forall q | q in Blocks() :: q in old(Blocks()) && Blocks()[q] == old(Blocks())[q]
      ensures OthersUntouched(old(parent.out), old(Own()), old(parent.cells), old(parent.elementsCompletelyDequeued),
                              parent.out, Own(), parent.cells, parent.elementsCompletelyDequeued)
    {
      hide CountLaw, CellsLaw, OwnLaw, OthersUntouched, Wrap, Sub, parent.Valid, blockIndex.Valid;
      ghost var blocks0, out0, cells0, dequeued0 := blockIndex.blocks, parent.out, parent.cells, parent.elementsCompletelyDequeued;
      HeadBlock(head, k);
      blockIndex.Domain();
      blockIndex.Live(head / BLOCK_SIZE);
      var entry := blockIndex.index[slot];
      var block := blockIndex.entries[entry].value.value;
      items := ReadElements(block, from, stop, k);
      ghost var cells1 := parent.cells;
      ExactCount(head, k);
      FinishBlock(entry, block, k, Sub(stop, from));
      OthersStayUntouched(out0, blocks0.Values, cells0, dequeued0, out0, blocks0.Values, cells1, dequeued0,
                          parent.out, Own(), parent.cells, parent.elementsCompletelyDequeued);
    }

    /** One turn of dequeue_bulk's loop: up to the end of the block, or of what was claimed. */
    method ReadTurn(slot: nat, from: Index, last: Index, ghost end: nat)
      returns (items: seq<T>, endIndex: Index, nextSlot: nat)
      requires Laws(0) && contents != [] && head <= end <= Tail() && end < head + HALF
      requires blockIndex.index != [] && slot == Slot(blockIndex.bias, head / BLOCK_SIZE, |blockIndex.index|)
      requires from == Wrap(head) && last == Wrap(end)
      modifies this`head, this`contents, parent, blockIndex`entries, blockIndex`first, blockIndex`blocks
      ensures Laws(0) && head == StopAt(old(head), end) && endIndex == Wrap(head)
      ensures head >= old(head) && |items| == head - old(head) <= |old(contents)| && items == old(contents)[..|items|]
      ensures contents == old(contents)[|items|..]
      ensures blockIndex.index != []
      ensures nextSlot == Slot(blockIndex.bias, old(head) / BLOCK_SIZE + 1, |blockIndex.index|)
      ensures forall q | q in Blocks() :: q in old(Blocks()) && Blocks()[q] == old(Blocks())[q]
      ensures OthersUntouched(old(parent.out), old(Own()), old(parent.cells), old(parent.elementsCompletelyDequeued),
                              parent.out, Own(), parent.cells, parent.elementsCompletelyDequeued)
    {
      hide CountLaw, CellsLaw, OwnLaw, OthersUntouched, Wrap, Add, BlockBase, CircularLess, StopAt, FloorBase, Laws;
      ghost var q, stop := head / BLOCK_SIZE, StopAt(head, end);
      StopIsExact(head, end);
      StopFits(head, end);
      endIndex := Add(BlockBase(from), BLOCK_SIZE);
      if CircularLess(last, endIndex) {
        endIndex := last;
      }
      items := ReadBlock(slot, from, endIndex, stop - head);
      nextSlot := blockIndex.NextSlot(slot, q);
    }

    /** The loop of dequeue_bulk over the blocks that `actual` claimed elements lie in. */
    method ReadBlocks(firstIndex: Index, actual: Index) returns (items: seq<T>)
      requires Laws(0) && contents != [] && actual <= |contents| && firstIndex == Wrap(head)
      modifies this`head, this`contents, parent, blockIndex`entries, blockIndex`first, blockIndex`blocks
      ensures Laws(0) && head == old(head) + actual && items == old(contents)[..actual]
      ensures contents == old(contents)[actual..]
      ensures forall q | q in Blocks() :: q in old(Blocks()) && Blocks()[q] == old(Blocks())[q]
      ensures OthersUntouched(old(parent.out), old(Own()), old(parent.cells), old(parent.elementsCompletelyDequeued),
                              parent.out, Own(), parent.cells, parent.elementsCompletelyDequeued)
    {
      hide CountLaw, CellsLaw, OwnLaw, OthersUntouched, Wrap, Add, BlockBase, CircularLess, StopAt, FloorBase, parent.Valid, blockIndex.Valid;
      ghost var h, c, end := head, contents, head + actual;
      ghost var blocks0, out0, cells0, dequeued0 := blockIndex.blocks, parent.out, parent.cells, parent.elementsCompletelyDequeued;
      SpanFits(head, blockIndex.count);
      HeadBlock(head, 0);
      Unchanged();
      AddIsWrapped(head, actual);
      var i := firstIndex;
      items := [];
      var slot := blockIndex.Lookup(i, head);
      hide Laws;
      while true
        invariant |items| <= actual && head == h + |items| && contents == c[|items|..] && items == c[..|items|]
        invariant contents != []
        invariant items == [] || |items| < actual
        invariant i == Wrap(head) && Laws(0)
        invariant blockIndex.index != [] && slot == Slot(blockIndex.bias, head / BLOCK_SIZE, |blockIndex.index|)
        invariant forall q | q in Blocks() :: q in blocks0 && Blocks()[q] == blocks0[q]
        invariant OthersUntouched(out0, blocks0.Values, cells0, dequeued0, parent.out, Own(), parent.cells, parent.elementsCompletelyDequeued)
        decreases actual - |items|
      {
        ghost var blocks1, out1, cells1, dequeued1 := blockIndex.blocks, parent.out, parent.cells, parent.elementsCompletelyDequeued;
        StopFits(head, end);
        var read;
        read, i, slot := ReadTurn(slot, i, Add(firstIndex, actual), end);
        OthersStayUntouched(out0, blocks0.Values, cells0, dequeued0, out1, blocks1.Values, cells1, dequeued1,
                            parent.out, Own(), parent.cells, parent.elementsCompletelyDequeued);
        items := items + read;
        if i == Add(firstIndex, actual) {
          SameWithinRange(head, end);
          break;
        }
      }
    }

    /** dequeue_bulk. */
    method DequeueBulk(max: Index) returns (items: seq<T>)
      requires Valid()
      modifies this`headIndex, this`dequeueOptimisticCount, this`head, this`contents, parent, blockIndex`entries, blockIndex`first, blockIndex`blocks
      ensures Valid()
      ensures var n := if max < |old(contents)| then max else |old(contents)|;
              items == old(contents)[..n] && contents == old(contents)[n..] && head == old(head) + n
      ensures forall q | q in Blocks() :: q in old(Blocks()) && Blocks()[q] == old(Blocks())[q]
      ensures OthersUntouched(old(parent.out), old(Own()), old(parent.cells), old(parent.elementsCompletelyDequeued),
                              parent.out, Own(), parent.cells, parent.elementsCompletelyDequeued)
    {
      hide CountLaw, CellsLaw, OwnLaw, OthersUntouched, Wrap, Add, Sub, CircularLess, parent.Valid, blockIndex.Valid;
      blockIndex.Domain();
      Unchanged();
      DifferenceIsExact(Tail(), head);
      var tail, overcommit := tailIndex, dequeueOvercommit;
      var desiredCount := Sub(tail, Sub(dequeueOptimisticCount, overcommit));
      if CircularLess(0, desiredCount) {
        desiredCount := if desiredCount < max then desiredCount else max;
        AddIsWrapped(head, desiredCount);
        AddingToBoth(dequeueOptimisticCount, dequeueOvercommit, desiredCount);
        var myDequeueCount := dequeueOptimisticCount;
        dequeueOptimisticCount := Add(dequeueOptimisticCount, desiredCount);
        tail := tailIndex;
        var actualCount := Sub(tail, Sub(myDequeueCount, overcommit));
        if CircularLess(0, actualCount) {
          actualCount := if desiredCount < actualCount then desiredCount else actualCount;
          if actualCount < desiredCount {
            assert false;   // giving part of the ticket back takes another consumer
          }
          var firstIndex := headIndex;
          headIndex := Add(headIndex, actualCount);
          items := ReadBlocks(firstIndex, actualCount);
          blockIndex.Domain();
          assert blockIndex.first < blockIndex.count ==> blockIndex.count - 1 in Blocks();
          return;
        } else {
          assert false;     // as does giving all of it back
        }
      }
      return [];
    }

    // ---- enqueue_bulk ----------------------------------------------------------------

    /** The state of the allocation loop: block numbers from n0 on are new, and chained from block lo. */
    ghost predicate Growing(lo: nat, n0: nat, blocks0: map<nat, Block>, out0: set<Block>,
                            cells0: map<Block, seq<Option<T>>>, dequeued0: map<Block, nat>)
      reads `tailIndex, `headIndex, `dequeueOptimisticCount, `dequeueOvercommit, `head, `contents, parent, blockIndex
    {
      && Holds() && lo <= n0
      && Taken(blocks0, out0, n0, blockIndex.blocks, parent.out, blockIndex.count)
      && SameStorage(out0, cells0, dequeued0, parent.cells, parent.elementsCompletelyDequeued)
      && (n0 < blockIndex.count ==> Chained(parent.next, blockIndex.blocks, lo, blockIndex.count))
      && (n0 < blockIndex.count ==> LastLink(parent.next, blockIndex.blocks, blockIndex.count - 1))
    }

    lemma OwnBlock(n: nat)
      requires Laws(0)
      ensures OwnLaw(blockIndex.blocks, parent.out)
      ensures n > 0 && n - 1 in blockIndex.blocks ==> blockIndex.blocks[n - 1] in parent.out
    {}

    /** The new block ends the chain, and the block before it, if one's own, leads to it. */
    method LinkBlock(newBlock: Block, linksBack: bool, ghost blocks: map<nat, Block>, ghost count: nat)
      requires Holds() && newBlock in parent.out
      requires linksBack ==> count > 0 && count - 1 in blocks && blocks[count - 1] in parent.out && tailBlock == Some(blocks[count - 1])
      modifies parent`next
      ensures Holds() && parent.next == Linked(old(parent.next), blocks, count, newBlock, linksBack)
    {
      hide CellsLaw, CountLaw, OwnLaw, parent.Valid, blockIndex.Valid;
      parent.SetNext(newBlock, None);
      if linksBack {
        parent.SetNext(tailBlock.value, Some(newBlock));
      }
    }

    /** The ends of the chain of new blocks, as enqueue_bulk knows them. */
    ghost predicate BulkChain(firstBlock: Option<Block>, startBlock: Option<Block>)
      reads this, blockIndex
    {
      var n0, count := Published(Tail()), blockIndex.count;
      if n0 < count then
        && n0 in blockIndex.blocks && firstBlock == Some(blockIndex.blocks[n0])
        && count - 1 in blockIndex.blocks && tailBlock == Some(blockIndex.blocks[count - 1])
      else firstBlock == None && tailBlock == startBlock
    }

    lemma StartsGrowing(lo: nat, n0: nat, blocks0: map<nat, Block>, out0: set<Block>,
                        cells0: map<Block, seq<Option<T>>>, dequeued0: map<Block, nat>)
      requires Holds() && lo <= n0 == blockIndex.count && blocks0 == blockIndex.blocks && out0 == parent.out
      requires cells0 == parent.cells && dequeued0 == parent.elementsCompletelyDequeued
      ensures Growing(lo, n0, blocks0, out0, cells0, dequeued0)
      ensures OwnLaw(blocks0, out0) && SameStorage(out0, cells0, dequeued0, cells0, dequeued0)
    {
      hide CellsLaw, CountLaw;
      blockIndex.Domain();
      parent.Unwritten();
      assert Span(blocks0, n0, n0) == {};
    }

    lemma GrowingHolds(lo: nat, n0: nat, blocks0: map<nat, Block>, out0: set<Block>,
                       cells0: map<Block, seq<Option<T>>>, dequeued0: map<Block, nat>)
      requires Growing(lo, n0, blocks0, out0, cells0, dequeued0)
      ensures Holds() && SameStorage(out0, cells0, dequeued0, parent.cells, parent.elementsCompletelyDequeued)
    {}

    /** One turn of the allocation loop: a block, if it can be had, at the end of the chain.  `linksBack` says
        that the block now in `tailBlock` is still one's own. */
    method TakeLinkedBlock(blockStart: Index, linksBack: bool, canAlloc: bool, indexMemory: bool, blockMemory: bool,
                           ghost lo: nat, ghost n0: nat, ghost blocks0: map<nat, Block>, ghost out0: set<Block>,
                           ghost cells0: map<Block, seq<Option<T>>>, ghost dequeued0: map<Block, nat>) returns (r: Option<Block>)
      requires Growing(lo, n0, blocks0, out0, cells0, dequeued0) && blockStart == Wrap(blockIndex.count * BLOCK_SIZE)
      requires linksBack <==> lo < blockIndex.count
      requires linksBack ==> blockIndex.count - 1 in blockIndex.blocks && tailBlock == Some(blockIndex.blocks[blockIndex.count - 1])
      requires n0 == blockIndex.count ==> lo >= n0 - 1
      modifies this`tailBlock, parent, blockIndex
      ensures Growing(lo, n0, blocks0, out0, cells0, dequeued0) && blockIndex.first == old(blockIndex.first)
      ensures blockIndex.index == [] <==> old(blockIndex.index) == []
      ensures r.Some? <==> (&& HasRoom(head, (old(blockIndex.count) + 1) * BLOCK_SIZE, limit)
                            && old(blockIndex.HasPlace(canAlloc && indexMemory))
                            && old(parent.HasBlock(canAlloc && blockMemory)))
      ensures r.None? ==> blockIndex.blocks == old(blockIndex.blocks) && blockIndex.count == old(blockIndex.count) && parent.out == old(parent.out) && tailBlock == old(tailBlock)
      ensures r.Some? ==> blockIndex.count == old(blockIndex.count) + 1 && blockIndex.blocks == old(blockIndex.blocks)[old(blockIndex.count) := r.value] && tailBlock == r
      ensures r.Some? ==> |blockIndex.index| == Resized(|old(blockIndex.index)|, Used(old(blockIndex.count))) && parent.Spare() == Fewer(old(parent.Spare()))
    {
      hide CountLaw, CellsLaw, HasRoom, Taken, SameStorage, MemoryKept, Chained, LastLink, Wrap, Published, IsBlank,
           Used, Resized, Fewer, parent.Spare, parent.HasBlock, blockIndex.HasPlace,
           parent.Valid, blockIndex.Valid;
      ghost var blocks1, out1, n := blockIndex.blocks, parent.out, blockIndex.count;
      ghost var cells1, dequeued1, next1 := parent.cells, parent.elementsCompletelyDequeued, parent.next;
      blockIndex.Domain();
      OwnBlock(n);
      hide Laws, Holds, OwnLaw;
      OutGrows(blocks0, out0, n0, blocks1, out1, n);
      if n == n0 {
        NoChain(next1, blocks1, lo, n);
      }
      r := TakeBlock(blockStart, canAlloc, indexMemory, blockMemory);
      KeptIsSame(out0, cells0, dequeued0, out1, cells1, dequeued1, next1, parent.cells,
                 parent.elementsCompletelyDequeued, parent.next);
      if r.None? {
        return;
      }
      TakeOneMore(blocks0, out0, n0, blocks1, out1, n, r.value);
      LinkKeepsChain(out1, blocks1, lo, n, r.value, linksBack, cells1, dequeued1, next1, parent.cells,
                     parent.elementsCompletelyDequeued, parent.next);
      LinkBlock(r.value, linksBack, blocks1, n);
      tailBlock := r;
    }

    /** add_blocks_to_free_list, for the chain of blocks [from, count). */
    method ReleaseChain(firstBlock: Option<Block>, ghost blocks: map<nat, Block>, ghost from: nat, ghost count: nat)
      requires parent.Valid() && from < count && from in blocks && firstBlock == Some(blocks[from])
      requires OwnLaw(blocks, parent.out) && Chained(parent.next, blocks, from, count)
      requires LastLink(parent.next, blocks, count - 1)
      requires forall q | from <= q < count :: q in blocks && IsBlank(parent.cells, blocks[q])
      modifies parent
      ensures parent.Valid() && parent.out == old(parent.out) - Span(blocks, from, count)
      ensures parent.cells == old(parent.cells)
      ensures parent.elementsCompletelyDequeued == old(parent.elementsCompletelyDequeued)
    {
      hide parent.Valid, Chained, IsBlank;
      var block := firstBlock;
      ghost var q, out0 := from, parent.out;
      assert Span(blocks, from, from) == {};
      while block != None
        invariant from <= q <= count && block == (if q < count then Some(blocks[q]) else None)
        invariant parent.Valid() && parent.out == out0 - Span(blocks, from, q)
        invariant parent.cells == old(parent.cells)
        invariant parent.elementsCompletelyDequeued == old(parent.elementsCompletelyDequeued)
        invariant parent.next == old(parent.next)
        decreases count - q
      {
        NextInChain(parent.next, blocks, from, count, q);
        StillOut(blocks, from, q);
        var next := parent.next[block.value];
        parent.Release(block.value);
        block := next;
        q := q + 1;
      }
    }

    /** What enqueue_bulk does when a block cannot be had: every entry made is emptied, the index tail moves
        back, and every block taken goes back. */
    method Rollback(firstBlock: Option<Block>, startBlock: Option<Block>, ghost lo: nat,
                    ghost blocks0: map<nat, Block>, ghost out0: set<Block>,
                    ghost cells0: map<Block, seq<Option<T>>>, ghost dequeued0: map<Block, nat>)
      requires Growing(lo, Published(Tail()), blocks0, out0, cells0, dequeued0) && OwnLaw(blocks0, out0)
      requires Published(Tail()) < blockIndex.count
      requires Published(Tail()) in blockIndex.blocks && firstBlock == Some(blockIndex.blocks[Published(Tail())])
      modifies this`tailBlock, parent, blockIndex
      ensures blockIndex.first == old(blockIndex.first)
      ensures Holds() && blockIndex.blocks == blocks0 && blockIndex.count == Published(Tail()) && parent.out == out0
      ensures tailBlock == startBlock
      ensures SameStorage(out0, cells0, dequeued0, parent.cells, parent.elementsCompletelyDequeued)
    {
      hide CountLaw, CellsLaw, OwnLaw, Taken, SameStorage, Chained, LastLink, IsBlank, Wrap, Add, Sub, BlockBase, parent.Valid, blockIndex.Valid, blockIndex.Undoing;
      ghost var n0, blocks1, count := Published(Tail()), blockIndex.blocks, blockIndex.count;
      StartBase(Tail());
      SpanFits(head, count);
      blockIndex.Domain();
      CountedBlocks(head, Tail());
      forall q | n0 <= q < count ensures IsBlank(parent.cells, blocks1[q]) {
        AheadIsBlank(parent.cells, blocks1, head, contents[0..], q);
      }
      var current := BlockBase(Sub(tailIndex, 1));
      var block := firstBlock;
      ghost var q := n0;
      blockIndex.BeginUndo(n0);
      while block != None
        invariant n0 <= q <= count && block == (if q < count then Some(blocks1[q]) else None)
        invariant current == Wrap((q - 1) * BLOCK_SIZE)
        invariant blockIndex.Undoing(n0, q - n0)
        modifies blockIndex`entries, blockIndex`tail
        decreases count - q
      {
        NextInChain(parent.next, blocks1, lo, count, q);
        AddIsWrapped((q - 1) * BLOCK_SIZE, BLOCK_SIZE);
        current := Add(current, BLOCK_SIZE);
        blockIndex.UndoOne(n0, q - n0, current);
        block := parent.next[block.value];
        q := q + 1;
      }
      blockIndex.EndUndo(n0);
      GiveAllBack(blocks0, out0, n0, blocks1, parent.out, count);
      ShorterChain(parent.next, blocks1, lo, n0, count);
      FewerHold(parent.cells, parent.elementsCompletelyDequeued, parent.out, blocks1, head, contents[0..], blocks0,
                out0, n0, count);
      ReleaseChain(firstBlock, blocks1, n0, count);
      tailBlock := startBlock;
    }

    lemma BulkSetup(count: Index)
      requires Valid() && count < HALF - BLOCK_SIZE
      ensures var n0 := Published(Tail()); var lo := Tail() / BLOCK_SIZE;
              && tailIndex == Wrap(Tail()) && blockIndex.count == n0 && lo <= n0 && n0 <= lo + 1
              && (tailIndex % BLOCK_SIZE != 0 <==> lo < n0)
              && (lo < n0 ==> n0 - 1 in blockIndex.blocks && tailBlock == Some(blockIndex.blocks[n0 - 1]))
              && OwnLaw(blockIndex.blocks, parent.out)
              && Growing(lo, n0, blockIndex.blocks, parent.out, parent.cells, parent.elementsCompletelyDequeued)
              && BlockBaseDiff(tailIndex, count) == BlockStarts(Tail(), count) * BLOCK_SIZE
              && Published(Tail() + count) == n0 + BlockStarts(Tail(), count)
              && BlockBase(Sub(tailIndex, 1)) == Wrap((n0 - 1) * BLOCK_SIZE)
    {
      hide CellsLaw, CountLaw, parent.Valid, blockIndex.Valid;
      BlockBaseDiffCountsStarts(Tail(), count);
      BulkNeeds(Tail(), count);
      StartBase(Tail());
      TailBlockIs(Tail());
      blockIndex.Domain();
      StartsGrowing(Tail() / BLOCK_SIZE, Published(Tail()), blockIndex.blocks, parent.out, parent.cells,
                    parent.elementsCompletelyDequeued);
    }

    /** What blocks and slots there are. */
    ghost function Stocked(): Stock
      reads parent`initialBlockPoolIndex, parent`freeList, blockIndex
    {
      Stock(blockIndex.count, |blockIndex.index|, Used(blockIndex.count), parent.Spare())
    }

    /** The first i blocks of a batch could be had, and this is what they have left. */
    ghost predicate Granted(i: nat, stock: Stock, canAlloc: bool, indexMemory: nat -> bool, blockMemory: nat -> bool)
      reads `head, parent`initialBlockPoolIndex, parent`freeList, blockIndex
    {
      && Suffices(stock, i, head, limit, canAlloc, indexMemory, blockMemory)
      && blockIndex.count == stock.count + i && blockIndex.count == blockIndex.first + stock.used + i
      && (blockIndex.index == [] <==> stock.size == 0) && GrownTo(stock.size, |blockIndex.index|, stock.used + i)
      && parent.Spare() == (if i < stock.spare then stock.spare - i else 0)
    }

    lemma StartsGranted(canAlloc: bool, indexMemory: nat -> bool, blockMemory: nat -> bool)
      requires Valid()
      ensures Granted(0, Stocked(), canAlloc, indexMemory, blockMemory)
    {
      blockIndex.FitsRing();
      StartsGrown(|blockIndex.index|, Used(blockIndex.count));
    }

    /** The next block can be had exactly if the stock suffices for it too; what it leaves. */
    lemma NextGrant(i: nat, stock: Stock, canAlloc: bool, indexMemory: nat -> bool, blockMemory: nat -> bool)
      requires Granted(i, stock, canAlloc, indexMemory, blockMemory)
      ensures Suffices(stock, i + 1, head, limit, canAlloc, indexMemory, blockMemory) <==>
                && HasRoom(head, (blockIndex.count + 1) * BLOCK_SIZE, limit)
                && blockIndex.HasPlace(canAlloc && indexMemory(i)) && parent.HasBlock(canAlloc && blockMemory(i))
      ensures blockIndex.count == stock.count + i == blockIndex.first + Used(blockIndex.count)
      ensures Used(blockIndex.count) == stock.used + i
      ensures stock.size > 0 ==> GrownTo(stock.size, Resized(|blockIndex.index|, Used(blockIndex.count)), stock.used + i + 1)
      ensures Suffices(stock, i + 1, head, limit, canAlloc, indexMemory, blockMemory) ==> stock.size > 0
      ensures Fewer(parent.Spare()) == (if i + 1 < stock.spare then stock.spare - i - 1 else 0)
    {
      hide HasRoom;
      MemoryForMore(i, stock, canAlloc, indexMemory, blockMemory);
      if stock.size > 0 {
        GrownIsFull(stock.size, |blockIndex.index|, stock.used + i);
        GrowsOn(stock.size, |blockIndex.index|, stock.used + i);
      }
      hide MemoryFor, IsFullAt, GrownTo;
    }

    lemma GrantedMore(i: nat, stock: Stock, canAlloc: bool, indexMemory: nat -> bool, blockMemory: nat -> bool)
      requires Suffices(stock, i + 1, head, limit, canAlloc, indexMemory, blockMemory)
      requires blockIndex.count == stock.count + i + 1 && blockIndex.count == blockIndex.first + stock.used + i + 1
      requires stock.size > 0 && GrownTo(stock.size, |blockIndex.index|, stock.used + i + 1)
      requires parent.Spare() == (if i + 1 < stock.spare then stock.spare - i - 1 else 0)
      ensures Granted(i + 1, stock, canAlloc, indexMemory, blockMemory)
    {}

    /** One turn of the allocation loop of a batch, which fails exactly if the stock does not suffice for it. */
    method TakeGranted(blockStart: Index, linksBack: bool, i: nat, canAlloc: bool, indexMemory: nat -> bool,
                       blockMemory: nat -> bool, ghost stock: Stock,
                       ghost lo: nat, ghost n0: nat, ghost blocks0: map<nat, Block>, ghost out0: set<Block>,
                       ghost cells0: map<Block, seq<Option<T>>>, ghost dequeued0: map<Block, nat>) returns (r: Option<Block>)
      requires Growing(lo, n0, blocks0, out0, cells0, dequeued0) && blockStart == Wrap(blockIndex.count * BLOCK_SIZE)
      requires linksBack <==> lo < blockIndex.count
      requires linksBack ==> blockIndex.count - 1 in blockIndex.blocks && tailBlock == Some(blockIndex.blocks[blockIndex.count - 1])
      requires n0 == blockIndex.count ==> lo >= n0 - 1
      requires Granted(i, stock, canAlloc, indexMemory, blockMemory)
      modifies this`tailBlock, parent, blockIndex
      ensures Growing(lo, n0, blocks0, out0, cells0, dequeued0) && blockIndex.first == old(blockIndex.first)
      ensures r.Some? <==> Suffices(stock, i + 1, head, limit, canAlloc, indexMemory, blockMemory)
      ensures r.None? ==> blockIndex.blocks == old(blockIndex.blocks) && blockIndex.count == old(blockIndex.count) && parent.out == old(parent.out) && tailBlock == old(tailBlock)
      ensures r.Some? ==> blockIndex.count == old(blockIndex.count) + 1 && blockIndex.blocks == old(blockIndex.blocks)[old(blockIndex.count) := r.value] && tailBlock == r
      ensures r.Some? ==> Granted(i + 1, stock, canAlloc, indexMemory, blockMemory)
    {
      hide *;
      NextGrant(i, stock, canAlloc, indexMemory, blockMemory);
      r := TakeLinkedBlock(blockStart, linksBack, canAlloc, indexMemory(i), blockMemory(i), lo, n0, blocks0, out0, cells0, dequeued0);
      if r.Some? {
        GrantedMore(i, stock, canAlloc, indexMemory, blockMemory);
      }
    }

    /** The failing end of the allocation loop: everything as it was. */
    method GiveUp(firstBlock: Option<Block>, startBlock: Option<Block>, ghost lo: nat,
                  ghost blocks0: map<nat, Block>, ghost out0: set<Block>,
                  ghost cells0: map<Block, seq<Option<T>>>, ghost dequeued0: map<Block, nat>)
      requires Growing(lo, Published(Tail()), blocks0, out0, cells0, dequeued0) && OwnLaw(blocks0, out0)
      requires BulkChain(firstBlock, startBlock) && Published(Tail()) <= blockIndex.count
      requires blockIndex.count == Published(Tail()) ==> blockIndex.blocks == blocks0 && parent.out == out0
      modifies this`tailBlock, parent, blockIndex
      ensures blockIndex.first == old(blockIndex.first)
      ensures Holds() && blockIndex.blocks == blocks0 && blockIndex.count == Published(Tail()) && parent.out == out0
      ensures tailBlock == startBlock
      ensures SameStorage(out0, cells0, dequeued0, parent.cells, parent.elementsCompletelyDequeued)
    {
      hide OwnLaw, SameStorage, Growing, Published, Holds, parent.Valid, blockIndex.Valid;
      if firstBlock != None {
        Rollback(firstBlock, startBlock, lo, blocks0, out0, cells0, dequeued0);
      } else {
        GrowingHolds(lo, Published(Tail()), blocks0, out0, cells0, dequeued0);
      }
      tailBlock := startBlock;
    }

    /** The first half of enqueue_bulk: all the blocks that `count` elements need, or none. */
    method AllocateBulk(count: Index, canAlloc: bool, indexMemory: nat -> bool, blockMemory: nat -> bool)
      returns (ok: bool, firstBlock: Option<Block>)
      requires Valid() && count < HALF - BLOCK_SIZE
      modifies this`tailBlock, parent, blockIndex
      ensures Holds() && blockIndex.first == old(blockIndex.first)
      ensures !ok ==> blockIndex.blocks == old(blockIndex.blocks) && blockIndex.count == old(blockIndex.count) && parent.out == old(parent.out) && tailBlock == old(tailBlock)
      ensures SameStorage(old(parent.out), old(parent.cells), old(parent.elementsCompletelyDequeued), parent.cells, parent.elementsCompletelyDequeued)
      ensures ok ==> Growing(Tail() / BLOCK_SIZE, Published(Tail()), old(blockIndex.blocks), old(parent.out), old(parent.cells), old(parent.elementsCompletelyDequeued))
      ensures ok ==> blockIndex.count == Published(Tail() + count)
      ensures ok ==> BulkChain(firstBlock, old(tailBlock))
      ensures ok <==> Suffices(old(Stocked()), BlockStarts(old(Tail()), count), head, limit, canAlloc, indexMemory, blockMemory)
    {
      hide CountLaw, CellsLaw, OwnLaw, Taken, SameStorage, Chained, LastLink, Wrap, Add, Sub, BlockBase, BlockStarts, BlockBaseDiff,
           Published, HasRoom, FloorBase, Growing, Snug, Holds, Suffices, GrownTo, parent.Valid, blockIndex.Valid;
      ghost var lo, n0, blocks0, out0 := Tail() / BLOCK_SIZE, Published(Tail()), blockIndex.blocks, parent.out;
      ghost var cells0, dequeued0 := parent.cells, parent.elementsCompletelyDequeued;
      ghost var needed := BlockStarts(Tail(), count);
      ghost var stock := Stocked();
      BulkSetup(count);
      StartsGranted(canAlloc, indexMemory, blockMemory);
      var startBlock := tailBlock;
      var blockBaseDiff := BlockBaseDiff(tailIndex, count);
      var currentTailIndex := BlockBase(Sub(tailIndex, 1));
      firstBlock := None;
      var i := 0;
      while blockBaseDiff > 0
        invariant i <= needed && blockBaseDiff == (needed - i) * BLOCK_SIZE && blockIndex.count == n0 + i
        invariant currentTailIndex == Wrap((n0 + i - 1) * BLOCK_SIZE)
        invariant Growing(lo, n0, blocks0, out0, cells0, dequeued0) && blockIndex.first == old(blockIndex.first)
        invariant BulkChain(firstBlock, startBlock)
        invariant lo < blockIndex.count ==> blockIndex.count - 1 in blockIndex.blocks && tailBlock == Some(blockIndex.blocks[blockIndex.count - 1])
        invariant i == 0 ==> blockIndex.blocks == blocks0 && parent.out == out0
        invariant Granted(i, stock, canAlloc, indexMemory, blockMemory)
        decreases needed - i
      {
        blockBaseDiff := blockBaseDiff - BLOCK_SIZE;
        AddIsWrapped((n0 + i - 1) * BLOCK_SIZE, BLOCK_SIZE);
        currentTailIndex := Add(currentTailIndex, BLOCK_SIZE);
        var newBlock := TakeGranted(currentTailIndex, tailIndex % BLOCK_SIZE != 0 || firstBlock != None, i, canAlloc,
                                    indexMemory, blockMemory, stock, lo, n0, blocks0, out0, cells0, dequeued0);
        if newBlock.None? {
          if Suffices(stock, needed, head, limit, canAlloc, indexMemory, blockMemory) {
            SufficesForFewer(stock, i + 1, needed, head, limit, canAlloc, indexMemory, blockMemory);
          }
          GiveUp(firstBlock, startBlock, lo, blocks0, out0, cells0, dequeued0);
          return false, None;
        }
        firstBlock := if firstBlock == None then newBlock else firstBlock;
        i := i + 1;
      }
      GrowingHolds(lo, n0, blocks0, out0, cells0, dequeued0);
      assert Suffices(stock, needed, head, limit, canAlloc, indexMemory, blockMemory);
      return true, firstBlock;
    }

    /** The blocks are there, and the first elements of the batch are in them but not yet published. */
    ghost predicate Filling(placed: seq<T>)
      reads `tailIndex, `headIndex, `dequeueOptimisticCount, `dequeueOvercommit, `head, `contents, parent, blockIndex
    {
      && parent.Valid() && blockIndex.Valid()
      && (limit.Some? ==> limit.value % BLOCK_SIZE == 0 && limit.value < INDEX_RANGE)
      && tailIndex == Wrap(Tail()) && headIndex == Wrap(head) && Sub(dequeueOptimisticCount, dequeueOvercommit) == headIndex
      && blockIndex.first == head / BLOCK_SIZE && Tail() + |placed| <= blockIndex.count * BLOCK_SIZE
      && HasRoom(head, blockIndex.count * BLOCK_SIZE, limit)
      && OwnLaw(blockIndex.blocks, parent.out)
      && CellsLaw(parent.cells, blockIndex.blocks, head, contents + placed)
      && CountLaw(parent.elementsCompletelyDequeued, blockIndex.blocks, head)
    }

    lemma FillingIs(placed: seq<T>)
      requires Filling(placed)
      ensures tailIndex == Wrap(Tail()) && OwnLaw(blockIndex.blocks, parent.out)
    {}

    /** The inner fill loop of enqueue_bulk: the elements that go into one block. */
    method FillElements(items: seq<T>, start: nat, block: Option<Block>, from: Index, stop: Index, ghost k: nat)
      returns (done: nat)
      requires start + k <= |items| && Filling(items[..start]) && Tail() + start + k <= blockIndex.count * BLOCK_SIZE
      requires (Tail() + start) % BLOCK_SIZE + k <= BLOCK_SIZE && from == Wrap(Tail() + start)
      requires stop == Wrap(Tail() + start + k)
      requires k > 0 ==> (Tail() + start) / BLOCK_SIZE in blockIndex.blocks && block == Some(blockIndex.blocks[(Tail() + start) / BLOCK_SIZE])
      modifies parent`cells
      ensures done == start + k && Filling(items[..done])
      ensures WroteOwn(Own(), old(parent.cells), parent.cells)
    {
      hide CountLaw, CellsLaw, Wrap, parent.Valid, blockIndex.Valid;
      var i := from;
      done := start;
      while i != stop
        invariant start <= done <= start + k && i == Wrap(Tail() + done) && Filling(items[..done])
        invariant WroteOwn(Own(), old(parent.cells), parent.cells)
        decreases start + k - done
      {
        HeadBlock(Tail() + start, done - start);
        AppendKeepsCells(parent.cells, blockIndex.blocks, head, contents + items[..done], items[done]);
        assert contents + items[..done] + [items[done]] == contents + items[..done + 1];
        AddIsWrapped(Tail() + done, 1);
        TailPlace(0, Tail() + done);
        parent.Unwritten();
        assert block.value in Own() && block.value in parent.cells;
        parent.Construct(block.value, i % BLOCK_SIZE, items[done]);
        i := Add(i, 1);
        done := done + 1;
      }
      SameWithinRange(Tail() + done, Tail() + start + k);
    }

    /** One turn of the fill loop: up to the end of the block, or of the batch. */
    method FillTurn(items: seq<T>, start: nat, block: Option<Block>, from: Index, newTailIndex: Index)
      returns (done: nat, stopIndex: Index)
      requires start <= |items| < HALF - BLOCK_SIZE && Filling(items[..start])
      requires Tail() + |items| <= blockIndex.count * BLOCK_SIZE
      requires from == Wrap(Tail() + start) && newTailIndex == Wrap(Tail() + |items|)
      requires start < |items| ==> (Tail() + start) / BLOCK_SIZE in blockIndex.blocks && block == Some(blockIndex.blocks[(Tail() + start) / BLOCK_SIZE])
      modifies parent`cells
      ensures done <= |items| && Tail() + done == StopAt(Tail() + start, Tail() + |items|)
      ensures stopIndex == Wrap(Tail() + done)
      ensures Filling(items[..done]) && WroteOwn(Own(), old(parent.cells), parent.cells)
    {
      hide WroteOwn, Wrap, Add, BlockBase, CircularLess, StopAt, FloorBase, Filling;
      ghost var at, end := Tail() + start, Tail() + |items|;
      StopIsExact(at, end);
      StopFits(at, end);
      stopIndex := Add(BlockBase(from), BLOCK_SIZE);
      if CircularLess(newTailIndex, stopIndex) {
        stopIndex := newTailIndex;
      }
      done := FillElements(items, start, block, from, stopIndex, StopAt(at, end) - at);
    }

    /** Where the fill loop starts, and where it will end. */
    lemma FirstTurn(n: nat, startBlock: Option<Block>, firstBlock: Option<Block>, lo: nat)
      requires tailIndex == Wrap(Tail()) && lo == Tail() / BLOCK_SIZE && blockIndex.count == Published(Tail() + n)
      requires BulkChain(firstBlock, startBlock)
      requires lo < Published(Tail()) ==> lo in blockIndex.blocks && startBlock == Some(blockIndex.blocks[lo])
      ensures Tail() + n <= blockIndex.count * BLOCK_SIZE
      ensures var open := if tailIndex % BLOCK_SIZE == 0 && firstBlock != None then firstBlock else startBlock;
              if n == 0 then open == tailBlock
              else && lo in blockIndex.blocks && open == Some(blockIndex.blocks[lo])
                   && blockIndex.count > 0 && (Tail() + n - 1) / BLOCK_SIZE == blockIndex.count - 1
                   && blockIndex.count - 1 in blockIndex.blocks && tailBlock == Some(blockIndex.blocks[blockIndex.count - 1])
      ensures lo < blockIndex.count - 1 ==> Published(Tail()) < blockIndex.count
    {
      TailBlockIs(Tail());
      BulkOrder(Tail(), n);
    }

    /** The second half of enqueue_bulk: all the elements go into place, block after block. */
    method FillBulk(items: seq<T>, startBlock: Option<Block>, firstBlock: Option<Block>, ghost lo: nat)
      requires Filling([]) && |items| < HALF - BLOCK_SIZE && lo == Tail() / BLOCK_SIZE
      requires blockIndex.count == Published(Tail() + |items|)
      requires BulkChain(firstBlock, startBlock)
      requires lo < Published(Tail()) ==> lo in blockIndex.blocks && startBlock == Some(blockIndex.blocks[lo])
      requires Published(Tail()) < blockIndex.count ==> Chained(parent.next, blockIndex.blocks, lo, blockIndex.count)
      modifies this`tailBlock, parent`cells
      ensures Filling(items) && WroteOwn(Own(), old(parent.cells), parent.cells)
      ensures tailBlock == old(tailBlock)
    {
      hide CountLaw, CellsLaw, OwnLaw, WroteOwn, Chained, Wrap, Add, BlockBase, CircularLess, StopAt, FloorBase, Published, Filling, parent.Valid, blockIndex.Valid;
      FillingIs([]);
      WroteNothing(Own(), parent.cells);
      assert items[..0] == [] && items[..|items|] == items;
      var endBlock := tailBlock;
      var newTailIndex := Add(tailIndex, |items|);
      var currentTailIndex := tailIndex;
      var done := 0;
      ghost var start, end := Tail(), Tail() + |items|;
      AddIsWrapped(start, |items|);
      FirstTurn(|items|, startBlock, firstBlock, lo);
      hide BulkChain;
      tailBlock := startBlock;
      if currentTailIndex % BLOCK_SIZE == 0 && firstBlock != None {
        tailBlock := firstBlock;
      }
      while true
        invariant done <= |items| && currentTailIndex == Wrap(start + done) && Filling(items[..done])
        invariant if items == [] then tailBlock == endBlock
                  else done < |items| && lo <= (start + done) / BLOCK_SIZE && (start + done) / BLOCK_SIZE in blockIndex.blocks && tailBlock == Some(blockIndex.blocks[(start + done) / BLOCK_SIZE])
        invariant WroteOwn(Own(), old(parent.cells), parent.cells)
        modifies this`tailBlock, parent`cells
        decreases |items| - done
      {
        ghost var at := start + done;
        ghost var cells1 := parent.cells;
        done, currentTailIndex := FillTurn(items, done, tailBlock, currentTailIndex, newTailIndex);
        WroteOwnMore(Own(), old(parent.cells), cells1, parent.cells);
        if items != [] {
          TurnEnds(parent.next, blockIndex.blocks, parent.out, lo, blockIndex.count, at, end);
        }
        if tailBlock == endBlock {
          break;
        }
        tailBlock := parent.next[tailBlock.value];
      }
    }

    lemma GrowingIsFilling(lo: nat, n0: nat, blocks0: map<nat, Block>, out0: set<Block>,
                           cells0: map<Block, seq<Option<T>>>, dequeued0: map<Block, nat>)
      requires Growing(lo, n0, blocks0, out0, cells0, dequeued0)
      ensures Filling([]) && Taken(blocks0, out0, n0, blockIndex.blocks, parent.out, blockIndex.count)
      ensures OwnLaw(blockIndex.blocks, parent.out)
      ensures n0 < blockIndex.count ==> Chained(parent.next, blockIndex.blocks, lo, blockIndex.count)
      ensures blockIndex.first == head / BLOCK_SIZE && forall q: nat :: q in blockIndex.blocks <==> blockIndex.first <= q < blockIndex.count
    {
      hide Taken, OwnLaw, Chained, CountLaw;
      blockIndex.Domain();
      assert contents + [] == contents[0..];
    }

    /** Storing the new tail makes the batch part of the queue. */
    method Publish(items: seq<T>)
      requires Filling(items) && blockIndex.count == Published(Tail() + |items|) && |items| < HALF
      requires blockIndex.first < blockIndex.count ==> blockIndex.count - 1 in blockIndex.blocks && tailBlock == Some(blockIndex.blocks[blockIndex.count - 1])
      modifies this`tailIndex, this`contents
      ensures Valid() && contents == old(contents) + items
    {
      hide CountLaw, CellsLaw, OwnLaw, Wrap, Add, Published, parent.Valid, blockIndex.Valid;
      AddIsWrapped(Tail(), |items|);
      tailIndex := Add(tailIndex, |items|);
      contents := contents + items;
      assert contents[0..] == contents;
    }

    /** Filling the blocks taken and publishing the batch. */
    method PlaceBulk(items: seq<T>, startBlock: Option<Block>, firstBlock: Option<Block>,
                     ghost blocks0: map<nat, Block>, ghost out0: set<Block>,
                     ghost cells0: map<Block, seq<Option<T>>>, ghost dequeued0: map<Block, nat>)
      requires |items| < HALF - BLOCK_SIZE && OwnLaw(blocks0, out0)
      requires Growing(Tail() / BLOCK_SIZE, Published(Tail()), blocks0, out0, cells0, dequeued0)
      requires blockIndex.count == Published(Tail() + |items|) && BulkChain(firstBlock, startBlock)
      requires Tail() / BLOCK_SIZE < Published(Tail()) ==> Tail() / BLOCK_SIZE in blockIndex.blocks && startBlock == Some(blockIndex.blocks[Tail() / BLOCK_SIZE])
      requires blockIndex.first < blockIndex.count ==> blockIndex.count - 1 in blockIndex.blocks && tailBlock == Some(blockIndex.blocks[blockIndex.count - 1])
      modifies this`tailIndex, this`tailBlock, this`contents, parent`cells
      ensures Valid() && contents == old(contents) + items
      ensures OthersUntouched(out0, blocks0.Values, cells0, dequeued0, parent.out, Own(), parent.cells, parent.elementsCompletelyDequeued)
    {
      hide CountLaw, CellsLaw, OwnLaw, Taken, SameStorage, WroteOwn, OthersUntouched, Chained, LastLink, Wrap, Published,
           Filling, Laws, Holds, Snug, parent.Valid, blockIndex.Valid;
      ghost var n0, cells1 := Published(Tail()), parent.cells;
      GrowingIsFilling(Tail() / BLOCK_SIZE, n0, blocks0, out0, cells0, dequeued0);
      GrowingHolds(Tail() / BLOCK_SIZE, n0, blocks0, out0, cells0, dequeued0);
      hide Growing;
      FillBulk(items, startBlock, firstBlock, Tail() / BLOCK_SIZE);
      FillingIs(items);
      BulkIsOwn(blocks0, out0, n0, cells0, dequeued0, blockIndex.blocks, parent.out, blockIndex.count, cells1,
                parent.elementsCompletelyDequeued, parent.cells);
      Publish(items);
    }

    lemma TailBlockStays(startBlock: Option<Block>, firstBlock: Option<Block>, blocks0: map<nat, Block>,
                         out0: set<Block>,
                         cells0: map<Block, seq<Option<T>>>, dequeued0: map<Block, nat>)
      requires Growing(Tail() / BLOCK_SIZE, Published(Tail()), blocks0, out0, cells0, dequeued0)
      requires BulkChain(firstBlock, startBlock)
      requires var n0 := Published(Tail()); blockIndex.first < n0 ==> n0 - 1 in blocks0 && startBlock == Some(blocks0[n0 - 1])
      ensures Tail() / BLOCK_SIZE < Published(Tail()) ==> Tail() / BLOCK_SIZE in blockIndex.blocks && startBlock == Some(blockIndex.blocks[Tail() / BLOCK_SIZE])
      ensures blockIndex.first < blockIndex.count ==> blockIndex.count - 1 in blockIndex.blocks && tailBlock == Some(blockIndex.blocks[blockIndex.count - 1])
    {
      hide CountLaw, CellsLaw, OwnLaw, SameStorage, Chained, LastLink, Wrap, parent.Valid, blockIndex.Valid;
      TailBlockIs(Tail());
    }

    /** enqueue_bulk: every element, in order, or nothing. */
    method EnqueueBulk(items: seq<T>, canAlloc: bool, indexMemory: nat -> bool, blockMemory: nat -> bool)
      returns (ok: bool)
      requires Valid() && |items| < HALF - BLOCK_SIZE
      modifies this`tailIndex, this`tailBlock, this`contents, parent, blockIndex
      ensures Valid() && head == old(head)
      ensures contents == old(contents) + if ok then items else []
      ensures !ok ==> blockIndex.blocks == old(blockIndex.blocks) && parent.out == old(parent.out) && tailBlock == old(tailBlock)
      ensures ok <==> Suffices(old(Stocked()), BlockStarts(old(Tail()), |items|), head, limit, canAlloc, indexMemory, blockMemory)
      ensures OthersUntouched(old(parent.out), old(Own()), old(parent.cells), old(parent.elementsCompletelyDequeued),
                              parent.out, Own(), parent.cells, parent.elementsCompletelyDequeued)
    {
      hide CountLaw, CellsLaw, OwnLaw, SameStorage, WroteOwn, OthersUntouched, Published, HasRoom, Growing, Suffices, parent.Valid, blockIndex.Valid;
      ghost var blocks0, out0, cells0, dequeued0 := blockIndex.blocks, parent.out, parent.cells, parent.elementsCompletelyDequeued;
      BulkSetup(|items|);
      hide Laws;
      var startBlock := tailBlock;
      var firstBlock;
      ok, firstBlock := AllocateBulk(|items|, canAlloc, indexMemory, blockMemory);
      if !ok {
        SameIsUntouched(out0, Own(), cells0, dequeued0, parent.cells, parent.elementsCompletelyDequeued);
        return;
      }
      TailBlockStays(startBlock, firstBlock, blocks0, out0, cells0, dequeued0);
      PlaceBulk(items, startBlock, firstBlock, blocks0, out0, cells0, dequeued0);
    }

    // ---- The destructor --------------------------------------------------------------

    /** After `n` elements have been destroyed: `block` is the one that the last of them was in, and those
        before it have gone back. */
    ghost predicate Dying(n: nat, block: Option<Block>, out0: set<Block>)
      reads `head, `contents, parent, blockIndex
    {
      var open := if n == 0 then blockIndex.first else (head + n - 1) / BLOCK_SIZE;
      && n <= |contents| && parent.Valid()
      && parent.out == out0 - Span(blockIndex.blocks, blockIndex.first, open)
      && CellsLaw(parent.cells, blockIndex.blocks, head + n, contents[n..])
      && (n == 0 ==> block == None)
      && (n > 0 ==> open in blockIndex.blocks && block == Some(blockIndex.blocks[open]))
    }

    /** What the destructor knows of the index, which it does not change. */
    ghost predicate Indexed(out0: set<Block>)
      reads `head, `contents, blockIndex
    {
      && blockIndex.Valid() && OwnLaw(blockIndex.blocks, out0)
      && blockIndex.first == head / BLOCK_SIZE && Tail() <= blockIndex.count * BLOCK_SIZE && HasRoom(head, blockIndex.count * BLOCK_SIZE, limit)
    }

    /** Moving on to the block of the next element, if that is a new one, and handing the last one back. */
    method NextBlock(i: Index, openBlock: Option<Block>, ghost n: nat, ghost out0: set<Block>)
      returns (block: Option<Block>)
      requires Dying(n, openBlock, out0) && n < |contents| && i == Wrap(head + n) && Indexed(out0)
      modifies parent
      ensures parent.Valid() && parent.cells == old(parent.cells)
      ensures (head + n) / BLOCK_SIZE in blockIndex.blocks && block == Some(blockIndex.blocks[(head + n) / BLOCK_SIZE])
      ensures parent.out == out0 - Span(blockIndex.blocks, blockIndex.first, (head + n) / BLOCK_SIZE)
      ensures block.value in parent.out && block.value in Own()
    {
      hide CountLaw, CellsLaw, OwnLaw, Wrap, parent.Valid, blockIndex.Valid;
      block := openBlock;
      ghost var at := head + n;
      SpanFits(head, blockIndex.count);
      TailPlace(head, at);
      Onward(head, n);
      blockIndex.Domain();
      blockIndex.Live(at / BLOCK_SIZE);
      if i % BLOCK_SIZE == 0 || block == None {
        if block != None {
          ghost var open := (at - 1) / BLOCK_SIZE;
          OpenIsOut(blockIndex.blocks, out0, blockIndex.first, open);
          DrainedIsBlank(parent.cells, blockIndex.blocks, open, at, contents[n..]);
          parent.Release(block.value);
        }
        var slot := blockIndex.Lookup(i, at);
        block := blockIndex.entries[blockIndex.index[slot]].value;
      }
      OpenIsOut(blockIndex.blocks, out0, blockIndex.first, at / BLOCK_SIZE);
    }

    method DestroyOne(i: Index, openBlock: Option<Block>, ghost n: nat, ghost out0: set<Block>)
      returns (x: T, block: Option<Block>)
      requires Dying(n, openBlock, out0) && n < |contents| && i == Wrap(head + n) && Indexed(out0)
      modifies parent
      ensures Dying(n + 1, block, out0) && x == contents[n]
      ensures WroteOwn(Own(), old(parent.cells), parent.cells)
    {
      hide CountLaw, CellsLaw, OwnLaw, Wrap, parent.Valid, blockIndex.Valid;
      ghost var at := head + n;
      block := NextBlock(i, openBlock, n, out0);
      TailPlace(head, at);
      RemoveKeepsCells(parent.cells, blockIndex.blocks, out0, at, contents[n..]);
      parent.Unwritten();
      assert contents[n..][1..] == contents[n + 1..];
      x := parent.MoveOut(block.value, i % BLOCK_SIZE);
    }

    /** The loop of the destructor. */
    method DestroyElements() returns (destroyed: seq<T>, ghost block: Option<Block>)
      requires Valid()
      modifies parent
      ensures Dying(|contents|, block, old(parent.out)) && destroyed == contents
      ensures WroteOwn(Own(), old(parent.cells), parent.cells)
    {
      hide CountLaw, CellsLaw, OwnLaw, WroteOwn, Wrap, Add, Published, parent.Valid, blockIndex.Valid;
      ghost var out0, cells0 := parent.out, parent.cells;
      WroteNothing(Own(), cells0);
      NoSpan(blockIndex.blocks, blockIndex.first);
      assert contents[0..] == contents;
      var tail, i := tailIndex, headIndex;
      var open := None;
      destroyed := [];
      hide Snug;
      while i != tail
        invariant |destroyed| <= |contents| && destroyed == contents[..|destroyed|] && i == Wrap(head + |destroyed|)
        invariant Dying(|destroyed|, open, out0) && WroteOwn(Own(), cells0, parent.cells)
        decreases |contents| - |destroyed|
      {
        ghost var cells1 := parent.cells;
        AddIsWrapped(head + |destroyed|, 1);
        var x;
        x, open := DestroyOne(i, open, |destroyed|, out0);
        WroteOwnMore(Own(), cells0, cells1, parent.cells);
        destroyed := destroyed + [x];
        i := Add(i, 1);
      }
      SameWithinRange(head + |destroyed|, Tail());
      block := open;
    }

    /** The destructor: destroys what is left, in order, and hands every block back. */
    method Destroy() returns (destroyed: seq<T>)
      requires Valid()
      modifies parent
      ensures parent.Valid() && destroyed == contents
      ensures parent.out == old(parent.out) - Own()
      ensures WroteOwn(Own(), old(parent.cells), parent.cells)
    {
      hide CountLaw, CellsLaw, OwnLaw, WroteOwn, Wrap, parent.Valid, blockIndex.Valid;
      ghost var out0, blocks0, first, count := parent.out, blockIndex.blocks, blockIndex.first, blockIndex.count;
      blockIndex.Domain();
      SpanIsAll(blocks0, first, count);
      NoSpan(blocks0, first);
      TailBlockIs(Tail());
      LastBlockIs(head, Tail());
      if first < count {
        OpenIsOut(blocks0, out0, first, count - 1);
      }
      var forceFreeLastBlock := headIndex != tailIndex;
      if !forceFreeLastBlock {
        SameWithinRange(head, Tail());
      }
      ghost var block;
      destroyed, block := DestroyElements();
      if tailBlock != None && (forceFreeLastBlock || tailIndex % BLOCK_SIZE != 0) {
        NothingIsBlank(parent.cells, blocks0, Tail(), contents[|contents|..], count - 1);
        parent.Release(tailBlock.value);
      }
    }

    // ---- Any mix of operations -------------------------------------------------------

    /** The operations one after the other, memory being there or not each time: every result is that of a
        plain sequence. */
    method Mix(ops: seq<Fifo.Op<T>>, canAlloc: bool, indexMemory: (nat, nat) -> bool, blockMemory: (nat, nat) -> bool)
      returns (results: seq<Fifo.Result<T>>)
      requires Valid() && forall i | 0 <= i < |ops| :: CanCall(ops[i])
      modifies this, parent, blockIndex
      ensures Valid() && Fifo.Explains(old(contents), ops, results)
      ensures contents == Fifo.Replay(old(contents), ops, results)
    {
      hide Holds, Snug, OthersUntouched;
      results := [];
      var i := 0;
      assert ops[..0] == [];
      while i < |ops|
        invariant i <= |ops| && Valid()
        invariant Fifo.Explains(old(contents), ops[..i], results)
        invariant contents == Fifo.Replay(old(contents), ops[..i], results)
      {
        ghost var before := contents;
        var result := Call(ops[i], canAlloc, (j: nat) => indexMemory(i, j), (j: nat) => blockMemory(i, j));
        Fifo.Extends(old(contents), ops, i, results, result);
        results := results + [result];
        i := i + 1;
      }
      assert ops[..|ops|] == ops;
    }

    /** One operation. */
    method Call(op: Fifo.Op<T>, canAlloc: bool, indexMemory: nat -> bool, blockMemory: nat -> bool)
      returns (result: Fifo.Result<T>)
      requires Valid() && CanCall(op)
      modifies this, parent, blockIndex
      ensures Valid() && Fifo.Fits(old(contents), op, result) && contents == Fifo.After(old(contents), op, result)
    {
      hide Holds, Snug, OthersUntouched;
      match op {
        case Put(x) =>
          var ok := Enqueue(x, canAlloc, indexMemory(0), blockMemory(0));
          result := Fifo.Stored(ok);
        case PutBulk(items) =>
          var ok := EnqueueBulk(items, canAlloc, indexMemory, blockMemory);
          result := Fifo.Stored(ok);
        case Take =>
          var r := Dequeue();
          result := Fifo.Got(if r.Some? then [r.value] else []);
        case TakeBulk(max) =>
          var items := DequeueBulk(max);
          result := Fifo.Got(items);
      }
    }
  }

  /** Blocks inserted, slots of the ring, how many of these are in use, and blocks to be had without new memory. */
  datatype Stock = Stock(count: nat, size: nat, used: nat, spare: nat)

  /** The memory that n blocks need: for a bigger ring whenever that one is full, and for the blocks that the pool has
      not. */
  ghost predicate MemoryFor(n: nat, stock: Stock, canAlloc: bool, indexMemory: nat -> bool, blockMemory: nat -> bool) {
    && (forall i: nat | i < n && GrowsFor(stock.size, stock.used, i) :: canAlloc && indexMemory(i))
    && (stock.spare < n ==> canAlloc) && (forall i: nat | stock.spare <= i < n :: blockMemory(i))
  }

  /** Whether n blocks can be had, each with its place in the index: the limit leaves room for them, there is an index,
      and there is memory for what the ring and the pool have not. */
  ghost predicate Suffices(stock: Stock, n: nat, head: nat, limit: Option<nat>, canAlloc: bool,
                           indexMemory: nat -> bool,
                           blockMemory: nat -> bool) {
    n == 0 || (HasRoom(head, (stock.count + n) * BLOCK_SIZE, limit) && stock.size > 0 && MemoryFor(n, stock, canAlloc, indexMemory, blockMemory))
  }

  lemma MemoryForMore(n: nat, stock: Stock, canAlloc: bool, indexMemory: nat -> bool, blockMemory: nat -> bool)
    ensures MemoryFor(0, stock, canAlloc, indexMemory, blockMemory)
    ensures MemoryFor(n, stock, canAlloc, indexMemory, blockMemory)
            && (GrowsFor(stock.size, stock.used, n) ==> canAlloc && indexMemory(n)) && (stock.spare <= n ==> canAlloc && blockMemory(n))
            ==> MemoryFor(n + 1, stock, canAlloc, indexMemory, blockMemory)
    ensures MemoryFor(n + 1, stock, canAlloc, indexMemory, blockMemory) ==>
              && MemoryFor(n, stock, canAlloc, indexMemory, blockMemory)
              && (GrowsFor(stock.size, stock.used, n) ==> canAlloc && indexMemory(n)) && (stock.spare <= n ==> canAlloc && blockMemory(n))
  {}

  /** What suffices for more suffices for fewer. */
  lemma SufficesForFewer(stock: Stock, m: nat, n: nat, head: nat, limit: Option<nat>, canAlloc: bool,
                         indexMemory: nat -> bool, blockMemory: nat -> bool)
    requires m <= n && Suffices(stock, n, head, limit, canAlloc, indexMemory, blockMemory)
    ensures Suffices(stock, m, head, limit, canAlloc, indexMemory, blockMemory)
  {
    if m > 0 {
      RoomForLess(head, (stock.count + n) * BLOCK_SIZE, (stock.count + m) * BLOCK_SIZE, limit);
    }
  }

  function Fewer(n: nat): nat { if n > 0 then n - 1 else 0 }

  /** What fits the machine's types. */
  predicate CanCall<T>(op: Fifo.Op<T>) {
    match op
    case PutBulk(items) => |items| < HALF - BLOCK_SIZE
    case TakeBulk(max) => max < INDEX_RANGE
    case _ => true
  }
}
