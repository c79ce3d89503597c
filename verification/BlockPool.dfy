/** Where blocks come from and go back to, and the memory they are made of.

    A block is an address; its element slots, its counter and its next pointer are entries of
    maps over addresses, so that two holders of one address share the block as pointers do. */
module BlockPool {
  import opened Options
  import opened Wraparound

  type Block = nat

  /** No element is alive in the block. */
  ghost predicate IsBlank<T>(cells: map<Block, seq<Option<T>>>, b: Block) {
    b in cells && forall i | 0 <= i < |cells[b]| :: cells[b][i].None?
  }

  ghost predicate IsFresh<T>(cells: map<Block, seq<Option<T>>>, dequeued: map<Block, nat>, b: Block) {
    IsBlank(cells, b) && |cells[b]| == BLOCK_SIZE && b in dequeued && dequeued[b] == 0
  }

  /** Every address is in exactly one place: still in the initial pool, on the free list, with some
      producer, or destroyed. */
  ghost predicate OnePlace(b: Block, poolIndex: nat, poolSize: nat, made: nat, freeList: seq<Block>, out: set<Block>,
                           destroyed: set<Block>) {
    if poolIndex <= b < poolSize then b !in freeList && b !in out && b !in destroyed
    else if b in freeList then b < made && b !in out && b !in destroyed
    else if b in out then b < made && b !in destroyed
    else b < made <==> b in destroyed
  }

  ghost predicate Places(poolIndex: nat, poolSize: nat, made: nat, freeList: seq<Block>, out: set<Block>,
                         destroyed: set<Block>) {
    && poolIndex <= poolSize <= made
    && (forall b: Block :: OnePlace(b, poolIndex, poolSize, made, freeList, out, destroyed))
    && (forall i, j | 0 <= i < j < |freeList| :: freeList[i] != freeList[j])
  }

  /** Blocks not handed out hold nothing. */
  ghost predicate Memory<T>(cells: map<Block, seq<Option<T>>>, dequeued: map<Block, nat>,
                            next: map<Block, Option<Block>>, made: nat, out: set<Block>) {
    && (forall b: Block :: b < made <==> b in cells)
    && cells.Keys == dequeued.Keys == next.Keys
    && (forall b | b in cells :: |cells[b]| == BLOCK_SIZE)
    && (forall b | b in cells && b !in out :: IsBlank(cells, b))
    && (forall b | b in out :: b in cells)
  }

  /** Blocks in use are not written by whoever takes another one. */
  ghost predicate MemoryKept<T>(out: set<Block>, cells: map<Block, seq<Option<T>>>, dequeued: map<Block, nat>,
                                next: map<Block, Option<Block>>,
                                cells': map<Block, seq<Option<T>>>, dequeued': map<Block, nat>, next': map<Block, Option<Block>>) {
    && (forall b | b in out :: b in cells && b in cells' && cells'[b] == cells[b])
    && (forall b | b in out :: b in dequeued && b in dequeued' && dequeued'[b] == dequeued[b])
    && (forall b | b in out :: b in next && b in next' && next'[b] == next[b])
  }

  lemma TakingFromPool(poolIndex: nat, poolSize: nat, made: nat, freeList: seq<Block>, out: set<Block>,
                       destroyed: set<Block>)
    requires Places(poolIndex, poolSize, made, freeList, out, destroyed) && poolIndex < poolSize
    ensures poolIndex !in out && Places(poolIndex + 1, poolSize, made, freeList, out + {poolIndex}, destroyed)
  {
    var poolIndex' := poolIndex + 1;
    forall b: Block ensures OnePlace(b, poolIndex', poolSize, made, freeList, out + {poolIndex}, destroyed) {
      assert OnePlace(b, poolIndex, poolSize, made, freeList, out, destroyed);
    }
    assert OnePlace(poolIndex, poolIndex, poolSize, made, freeList, out, destroyed);
  }

  lemma TakingFromList(poolIndex: nat, poolSize: nat, made: nat, freeList: seq<Block>, out: set<Block>,
                       destroyed: set<Block>)
    requires Places(poolIndex, poolSize, made, freeList, out, destroyed) && freeList != []
    ensures freeList[0] < made && freeList[0] !in out
    ensures Places(poolIndex, poolSize, made, freeList[1..], out + {freeList[0]}, destroyed)
  {
    forall b: Block ensures OnePlace(b, poolIndex, poolSize, made, freeList[1..], out + {freeList[0]}, destroyed) {
      assert OnePlace(b, poolIndex, poolSize, made, freeList, out, destroyed);
      assert b in freeList[1..] <==> b in freeList && b != freeList[0];
    }
    assert OnePlace(freeList[0], poolIndex, poolSize, made, freeList, out, destroyed);
  }

  lemma Making(poolIndex: nat, poolSize: nat, made: nat, freeList: seq<Block>, out: set<Block>, destroyed: set<Block>)
    requires Places(poolIndex, poolSize, made, freeList, out, destroyed)
    ensures made !in out && Places(poolIndex, poolSize, made + 1, freeList, out + {made}, destroyed)
  {
    var made' := made + 1;
    forall b: Block ensures OnePlace(b, poolIndex, poolSize, made', freeList, out + {made}, destroyed) {
      assert OnePlace(b, poolIndex, poolSize, made, freeList, out, destroyed);
    }
    assert OnePlace(made, poolIndex, poolSize, made, freeList, out, destroyed);
  }

  lemma GivingBack(poolIndex: nat, poolSize: nat, made: nat, freeList: seq<Block>, out: set<Block>,
                   destroyed: set<Block>, block: Block)
    requires Places(poolIndex, poolSize, made, freeList, out, destroyed) && block in out
    ensures block >= poolSize ==> Places(poolIndex, poolSize, made, freeList, out - {block}, destroyed + {block})
    ensures block < poolSize ==> Places(poolIndex, poolSize, made, [block] + freeList, out - {block}, destroyed)
  {
    assert OnePlace(block, poolIndex, poolSize, made, freeList, out, destroyed);
    forall b: Block ensures block >= poolSize ==> OnePlace(b, poolIndex, poolSize, made, freeList, out - {block}, destroyed + {block}) {
      assert OnePlace(b, poolIndex, poolSize, made, freeList, out, destroyed);
    }
    forall b: Block ensures block < poolSize ==> OnePlace(b, poolIndex, poolSize, made, [block] + freeList, out - {block}, destroyed) {
      assert OnePlace(b, poolIndex, poolSize, made, freeList, out, destroyed);
      assert b in [block] + freeList <==> b == block || b in freeList;
    }
  }

  class BlockPool<T> {
    const initialBlockPoolSize: nat
    var initialBlockPoolIndex: nat
    var freeList: seq<Block>

    var cells: map<Block, seq<Option<T>>>
    var elementsCompletelyDequeued: map<Block, nat>
    var next: map<Block, Option<Block>>
    var made: nat

    ghost var destroyed: set<Block>
    ghost var out: set<Block>          // handed out and not returned

    ghost predicate Valid()
      reads this
    {
      && Places(initialBlockPoolIndex, initialBlockPoolSize, made, freeList, out, destroyed)
      && Memory(cells, elementsCompletelyDequeued, next, made, out)
    }

    /** populate_initial_block_list: blocks at the first `blockCount` addresses. */
    constructor (blockCount: nat)
      ensures Valid() && out == {} && initialBlockPoolSize == blockCount
    {
      initialBlockPoolSize := blockCount;
      initialBlockPoolIndex := 0;
      freeList := [];
      cells, elementsCompletelyDequeued, next, made := map[], map[], map[], 0;
      destroyed, out := {}, {};
      new;
      while made < blockCount
        invariant made <= blockCount && initialBlockPoolIndex == 0 && freeList == [] && out == {} && destroyed == {}
        invariant cells.Keys == elementsCompletelyDequeued.Keys == next.Keys
        invariant forall b: Block :: b < made <==> b in cells
        invariant forall b | b in cells :: |cells[b]| == BLOCK_SIZE && IsBlank(cells, b)
      {
        Create();
      }
      forall b: Block ensures OnePlace(b, initialBlockPoolIndex, initialBlockPoolSize, made, freeList, out, destroyed) {}
    }

    /** Memory for one more block, and its constructor. */
    method Create()
      modifies this`cells, this`elementsCompletelyDequeued, this`next, this`made
      ensures cells == old(cells)[old(made) := seq(BLOCK_SIZE, _ => None)]
      ensures elementsCompletelyDequeued == old(elementsCompletelyDequeued)[old(made) := 0]
      ensures next == old(next)[old(made) := None]
      ensures made == old(made) + 1
    {
      cells := cells[made := seq(BLOCK_SIZE, _ => None)];
      elementsCompletelyDequeued := elementsCompletelyDequeued[made := 0];
      next := next[made := None];
      made := made + 1;
    }

    predicate HasBlock(memory: bool)
      reads this
    {
      initialBlockPoolIndex < initialBlockPoolSize || freeList != [] || memory
    }

    /** How many blocks can be had without new memory. */
    function Spare(): nat
      reads `initialBlockPoolIndex, `freeList
    {
      |freeList| + if initialBlockPoolIndex < initialBlockPoolSize then initialBlockPoolSize - initialBlockPoolIndex else 0
    }

    /** Handing nothing out keeps everything. */
    lemma Unwritten()
      requires Valid()
      ensures MemoryKept(out, cells, elementsCompletelyDequeued, next, cells, elementsCompletelyDequeued, next)
    {}

    /** requisition_block: the initial pool first, then the free list, then new memory if that is allowed
        and there is any. */
    method Requisition(canAlloc: bool, memory: bool) returns (r: Option<Block>)
      requires Valid()
      modifies this
      ensures Valid()
      ensures r.None? <==> !old(HasBlock(canAlloc && memory))
      ensures r.None? ==> out == old(out) && cells == old(cells) && elementsCompletelyDequeued == old(elementsCompletelyDequeued) && next == old(next)
      ensures r.Some? ==> r.value !in old(out) && out == old(out) + {r.value} && IsBlank(cells, r.value) && |cells[r.value]| == BLOCK_SIZE
      ensures if old(initialBlockPoolIndex) < initialBlockPoolSize then
                r == Some(old(initialBlockPoolIndex)) && initialBlockPoolIndex == old(initialBlockPoolIndex) + 1 && freeList == old(freeList)
              else if old(freeList) != [] then
                r == Some(old(freeList[0])) && freeList == old(freeList)[1..] && initialBlockPoolIndex == old(initialBlockPoolIndex)
              else
                (r.Some? ==> r.value == old(made)) && freeList == [] && initialBlockPoolIndex == old(initialBlockPoolIndex)
      ensures MemoryKept(old(out), old(cells), old(elementsCompletelyDequeued), old(next), cells, elementsCompletelyDequeued, next)
    {
      if initialBlockPoolIndex < initialBlockPoolSize {
        TakingFromPool(initialBlockPoolIndex, initialBlockPoolSize, made, freeList, out, destroyed);
        r := Some(initialBlockPoolIndex);
        initialBlockPoolIndex := initialBlockPoolIndex + 1;
      } else if freeList != [] {
        TakingFromList(initialBlockPoolIndex, initialBlockPoolSize, made, freeList, out, destroyed);
        r := Some(freeList[0]);
        freeList := freeList[1..];
      } else if canAlloc && memory {
        Making(initialBlockPoolIndex, initialBlockPoolSize, made, freeList, out, destroyed);
        r := Some(made);
        Create();
      } else {
        return None;
      }
      out := out + {r.value};
      assert IsBlank(cells, r.value);
    }

    /** add_block_to_free_list: only blocks of the initial pool are recycled. */
    method Release(block: Block)
      requires Valid() && block in out && IsBlank(cells, block)
      modifies this
      ensures Valid() && out == old(out) - {block}
      ensures if block >= initialBlockPoolSize then destroyed == old(destroyed) + {block} && freeList == old(freeList)
              else freeList == [block] + old(freeList) && destroyed == old(destroyed)
      ensures cells == old(cells) && elementsCompletelyDequeued == old(elementsCompletelyDequeued) && next == old(next)
    {
      GivingBack(initialBlockPoolIndex, initialBlockPoolSize, made, freeList, out, destroyed, block);
      if block >= initialBlockPoolSize {
        destroyed := destroyed + {block};
      } else {
        freeList := [block] + freeList;
      }
      out := out - {block};
    }

    /** Placement new of one element. */
    method Construct(block: Block, i: nat, x: T)
      requires Valid() && block in out && i < BLOCK_SIZE && cells[block][i].None?
      modifies this`cells
      ensures Valid()
      ensures cells == old(cells)[block := old(cells[block])[i := Some(x)]]
    {
      cells := cells[block := cells[block][i := Some(x)]];
    }

    /** Moving an element out and destroying it. */
    method MoveOut(block: Block, i: nat) returns (x: T)
      requires Valid() && block in out && i < BLOCK_SIZE && cells[block][i].Some?
      modifies this`cells
      ensures Valid() && x == old(cells[block][i].value)
      ensures cells == old(cells)[block := old(cells[block])[i := None]]
    {
      x := cells[block][i].value;
      cells := cells[block := cells[block][i := None]];
    }

    /** Resets the empty counter of a block just taken. */
    method ResetEmpty(block: Block)
      requires Valid() && block in out
      modifies this`elementsCompletelyDequeued
      ensures Valid() && elementsCompletelyDequeued == old(elementsCompletelyDequeued)[block := 0]
    {
      elementsCompletelyDequeued := elementsCompletelyDequeued[block := 0];
    }

    /** set_many_empty (and, with count 1, set_empty) of an implicit producer's block. */
    method SetManyEmpty(block: Block, count: nat) returns (isEmpty: bool)
      requires Valid() && block in out && elementsCompletelyDequeued[block] + count <= BLOCK_SIZE
      modifies this`elementsCompletelyDequeued
      ensures Valid() && elementsCompletelyDequeued == old(elementsCompletelyDequeued)[block := old(elementsCompletelyDequeued[block]) + count]
      ensures isEmpty <==> elementsCompletelyDequeued[block] == BLOCK_SIZE
    {
      elementsCompletelyDequeued := elementsCompletelyDequeued[block := elementsCompletelyDequeued[block] + count];
      isEmpty := elementsCompletelyDequeued[block] == BLOCK_SIZE;
    }

    method SetNext(block: Block, target: Option<Block>)
      requires Valid() && block in out
      modifies this`next
      ensures Valid() && next == old(next)[block := target]
    {
      next := next[block := target];
    }

    /** requisition_block and, as its callers then do, reset_empty. */
    method RequisitionReset(canAlloc: bool, memory: bool) returns (r: Option<Block>)
      requires Valid()
      modifies this
      ensures Valid()
      ensures r.None? <==> !old(HasBlock(canAlloc && memory))
      ensures r.None? ==> out == old(out) && cells == old(cells) && elementsCompletelyDequeued == old(elementsCompletelyDequeued) && next == old(next)
      ensures r.Some? ==> r.value !in old(out) && out == old(out) + {r.value} && IsFresh(cells, elementsCompletelyDequeued, r.value)
      ensures Spare() == if old(Spare()) > 0 then old(Spare()) - 1 else 0
      ensures MemoryKept(old(out), old(cells), old(elementsCompletelyDequeued), old(next), cells, elementsCompletelyDequeued, next)
    {
      r := Requisition(canAlloc, memory);
      if r.Some? {
        ResetEmpty(r.value);
      }
    }
  }
}
