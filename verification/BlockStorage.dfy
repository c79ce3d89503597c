/** What a producer's blocks hold, as a function of its contents, and what each kind of step does to it. */
module BlockStorage {
  import opened BlockPool
  import opened Claims
  import opened Options
  import opened Wraparound

  // ---- What is in the blocks ---------------------------------------------------------

  /** Element number i, if it has been enqueued and not dequeued. */
  function CellOf<T>(contents: seq<T>, head: nat, i: nat): Option<T> {
    if head <= i < head + |contents| then Some(contents[i - head]) else None
  }

  ghost predicate BlockHolds<T>(cells: map<Block, seq<Option<T>>>, b: Block, q: nat, head: nat, contents: seq<T>) {
    b in cells && |cells[b]| == BLOCK_SIZE && forall k | 0 <= k < BLOCK_SIZE :: cells[b][k] == CellOf(contents, head, q * BLOCK_SIZE + k)
  }

  /** Every owned block holds its share of the contents and nothing else. */
  ghost predicate CellsLaw<T>(cells: map<Block, seq<Option<T>>>, blocks: map<nat, Block>, head: nat, contents: seq<T>) {
    forall q | q in blocks :: BlockHolds(cells, blocks[q], q, head, contents)
  }

  /** How many elements of block q have been dequeued. */
  function Emptied(head: nat, q: nat): nat {
    if q * BLOCK_SIZE < head then head - q * BLOCK_SIZE else 0
  }

  ghost predicate CountLaw(dequeued: map<Block, nat>, blocks: map<nat, Block>, head: nat) {
    forall q | q in blocks :: blocks[q] in dequeued && dequeued[blocks[q]] == Emptied(head, q)
  }

  ghost predicate OwnLaw(blocks: map<nat, Block>, out: set<Block>) {
    && (forall q | q in blocks :: blocks[q] in out)
    && (forall q, r | q in blocks && r in blocks && q != r :: blocks[q] != blocks[r])
  }

  /** Blocks of other owners: none gained, none lost, none written. */
  ghost predicate OthersUntouched<T>(out: set<Block>, own: set<Block>, cells: map<Block, seq<Option<T>>>,
                                     dequeued: map<Block, nat>,
                                     out': set<Block>, own': set<Block>, cells': map<Block, seq<Option<T>>>, dequeued': map<Block, nat>) {
    && out' - own' == out - own
    && forall b | b in out - own :: b in cells && b in cells' && b in dequeued && b in dequeued' && cells'[b] == cells[b] && dequeued'[b] == dequeued[b]
  }

  /** The element at `tail` goes into the last block that elements up to it need. */
  lemma TailPlace(head: nat, tail: nat)
    requires head <= tail
    ensures Published(tail + 1) - 1 == tail / BLOCK_SIZE >= head / BLOCK_SIZE
    ensures tail + 1 <= Published(tail + 1) * BLOCK_SIZE
    ensures Wrap(tail) % BLOCK_SIZE == tail % BLOCK_SIZE
  {
    var k := tail / INDEX_RANGE;
    assert tail == INDEX_RANGE * k + Wrap(tail);
  }

  /** A block is started exactly at its first element. */
  lemma BlockStartsAt(tail: nat)
    ensures tail % BLOCK_SIZE == 0 ==> Published(tail) * BLOCK_SIZE == tail && Published(tail + 1) == Published(tail) + 1
    ensures tail % BLOCK_SIZE != 0 ==> Published(tail + 1) == Published(tail)
  {}

  lemma CountedBlocks(head: nat, tail: nat)
    requires head <= tail
    ensures head / BLOCK_SIZE <= Published(tail) && tail <= Published(tail) * BLOCK_SIZE < tail + BLOCK_SIZE
  {}

  /** The block that the next element goes into, or before which a block is to be started. */
  lemma TailBlockIs(tail: nat)
    ensures tail / BLOCK_SIZE == Published(tail) - (if tail % BLOCK_SIZE == 0 then 0 else 1)
    ensures Wrap(tail) % BLOCK_SIZE == tail % BLOCK_SIZE
  {
    TailPlace(0, tail);
  }

  lemma RoomForLess(head: nat, end: nat, end': nat, limit: Option<nat>)
    requires end' <= end && HasRoom(head, end, limit)
    ensures HasRoom(head, end', limit)
  {}

  /** The last block of a batch is not before the first. */
  lemma BulkOrder(start: nat, count: nat)
    ensures Published(start) <= start / BLOCK_SIZE + 1
    ensures count > 0 ==> Published(start + count) - 1 == (start + count - 1) / BLOCK_SIZE >= start / BLOCK_SIZE
    ensures Published(start) <= Published(start + count) && start + count <= Published(start + count) * BLOCK_SIZE
  {}

  lemma SpanFits(head: nat, count: nat)
    requires count * BLOCK_SIZE < head + HALF
    ensures (count - head / BLOCK_SIZE) * BLOCK_SIZE <= HALF
    ensures (count + 1) * BLOCK_SIZE < head + HALF ==> (count - head / BLOCK_SIZE) * BLOCK_SIZE < HALF
  {}

  // ---- Limits ------------------------------------------------------------------------

  /** The check made before a block is started, on wrapped counters; `limit` is MAX_SUBQUEUE_SIZE. */
  predicate IsFull(headIndex: Index, blockStart: Index, limit: Option<nat>) {
    || !CircularLess(headIndex, Add(blockStart, BLOCK_SIZE))
    || (limit.Some? && (limit.value == 0 || limit.value - BLOCK_SIZE < Sub(blockStart, headIndex)))
  }

  /** What it keeps below the limit is the span from the head to the end of the new block. */
  predicate HasRoom(head: nat, end: nat, limit: Option<nat>) {
    end - head < HALF && (limit.Some? ==> end - head <= limit.value)
  }

  lemma FullIsExact(head: nat, blockStart: nat, limit: Option<nat>)
    requires head <= blockStart && blockStart - head < HALF
    ensures IsFull(Wrap(head), Wrap(blockStart), limit) <==> !HasRoom(head, blockStart + BLOCK_SIZE, limit)
  {
    WrapAgain(BLOCK_SIZE, blockStart);
    LeewayCheck(blockStart, head);
    SubIsWrapped(blockStart, head);
  }

  // ---- How steps change the storage --------------------------------------------------

  lemma AppendKeepsCells<T>(cells: map<Block, seq<Option<T>>>, blocks: map<nat, Block>, head: nat, contents: seq<T>,
                            x: T)
    requires CellsLaw(cells, blocks, head, contents)
    requires forall q, r | q in blocks && r in blocks && q != r :: blocks[q] != blocks[r]
    requires (head + |contents|) / BLOCK_SIZE in blocks
    ensures var tail := head + |contents|; var b := blocks[tail / BLOCK_SIZE];
            cells[b][tail % BLOCK_SIZE] == None &&
            CellsLaw(cells[b := cells[b][tail % BLOCK_SIZE := Some(x)]], blocks, head, contents + [x])
  {
    var tail := head + |contents|;
    var b := blocks[tail / BLOCK_SIZE];
    assert BlockHolds(cells, b, tail / BLOCK_SIZE, head, contents);
    assert CellOf(contents, head, tail / BLOCK_SIZE * BLOCK_SIZE + tail % BLOCK_SIZE) == None;
    var cells' := cells[b := cells[b][tail % BLOCK_SIZE := Some(x)]];
    forall q | q in blocks ensures BlockHolds(cells', blocks[q], q, head, contents + [x]) {
      assert BlockHolds(cells, blocks[q], q, head, contents);
      forall k | 0 <= k < BLOCK_SIZE ensures cells'[blocks[q]][k] == CellOf(contents + [x], head, q * BLOCK_SIZE + k) {
        SamePlace(tail, q, k);
      }
    }
  }

  lemma SamePlace(i: nat, q: nat, k: nat)
    requires k < BLOCK_SIZE
    ensures i == q * BLOCK_SIZE + k <==> q == i / BLOCK_SIZE && k == i % BLOCK_SIZE
  {}

  lemma RemoveKeepsCells<T>(cells: map<Block, seq<Option<T>>>, blocks: map<nat, Block>, out: set<Block>, head: nat,
                            contents: seq<T>)
    requires CellsLaw(cells, blocks, head, contents) && contents != []
    requires OwnLaw(blocks, out)
    requires head / BLOCK_SIZE in blocks
    ensures var b := blocks[head / BLOCK_SIZE];
            cells[b][head % BLOCK_SIZE] == Some(contents[0]) &&
            CellsLaw(cells[b := cells[b][head % BLOCK_SIZE := None]], blocks, head + 1, contents[1..])
  {
    var b := blocks[head / BLOCK_SIZE];
    assert BlockHolds(cells, b, head / BLOCK_SIZE, head, contents);
    assert CellOf(contents, head, head / BLOCK_SIZE * BLOCK_SIZE + head % BLOCK_SIZE) == Some(contents[0]);
    var cells' := cells[b := cells[b][head % BLOCK_SIZE := None]];
    forall q | q in blocks ensures BlockHolds(cells', blocks[q], q, head + 1, contents[1..]) {
      assert BlockHolds(cells, blocks[q], q, head, contents);
      forall k | 0 <= k < BLOCK_SIZE ensures cells'[blocks[q]][k] == CellOf(contents[1..], head + 1, q * BLOCK_SIZE + k) {
        SamePlace(head, q, k);
      }
    }
  }

  ghost predicate Storage<T>(cells: map<Block, seq<Option<T>>>, dequeued: map<Block, nat>, out: set<Block>,
                             blocks: map<nat, Block>, head: nat, contents: seq<T>) {
    OwnLaw(blocks, out) && CellsLaw(cells, blocks, head, contents) && CountLaw(dequeued, blocks, head)
  }

  lemma AppendKeepsStorage<T>(cells: map<Block, seq<Option<T>>>, dequeued: map<Block, nat>, out: set<Block>,
                              blocks: map<nat, Block>, head: nat, contents: seq<T>, x: T)
    requires Storage(cells, dequeued, out, blocks, head, contents) && (head + |contents|) / BLOCK_SIZE in blocks
    ensures var tail := head + |contents|; var b := blocks[tail / BLOCK_SIZE];
            b in out && b in cells && |cells[b]| == BLOCK_SIZE && cells[b][tail % BLOCK_SIZE] == None &&
            Storage(cells[b := cells[b][tail % BLOCK_SIZE := Some(x)]], dequeued, out, blocks, head, contents + [x])
  {
    AppendKeepsCells(cells, blocks, head, contents, x);
  }

  /** A block just taken, all its slots empty and its counter reset, for elements not yet there. */
  lemma NewBlockKeepsStorage<T>(cells: map<Block, seq<Option<T>>>, dequeued: map<Block, nat>, out: set<Block>,
                                blocks: map<nat, Block>, head: nat, contents: seq<T>, q: nat, b: Block,
                                next: map<Block, Option<Block>>,
                                cells': map<Block, seq<Option<T>>>, dequeued': map<Block, nat>, next': map<Block, Option<Block>>)
    requires Storage(cells, dequeued, out, blocks, head, contents)
    requires head + |contents| <= q * BLOCK_SIZE && q !in blocks && b !in out
    requires MemoryKept(out, cells, dequeued, next, cells', dequeued', next')
    requires IsFresh(cells', dequeued', b)
    ensures Storage(cells', dequeued', out + {b}, blocks[q := b], head, contents)
  {
    var blocks' := blocks[q := b];
    assert BlockHolds(cells', b, q, head, contents);
    forall r | r in blocks' ensures BlockHolds(cells', blocks'[r], r, head, contents) {
      if r != q {
        assert BlockHolds(cells, blocks[r], r, head, contents);
      }
    }
  }

  lemma ValuesWith(blocks: map<nat, Block>, q: nat, b: Block)
    requires q !in blocks
    ensures blocks[q := b].Values == blocks.Values + {b}
  {
    var blocks' := blocks[q := b];
    forall c ensures c in blocks'.Values <==> c in blocks.Values + {b} {
      if c in blocks.Values {
        var r :| r in blocks && blocks[r] == c;
        assert blocks'[r] == c;
      }
      assert blocks'[q] == b;
    }
  }

  /** Taking a block and then writing one's own blocks only. */
  lemma TakenIsOwn<T>(blocks: map<nat, Block>, q: nat, b: Block, out: set<Block>,
                      cells: map<Block, seq<Option<T>>>, dequeued: map<Block, nat>, next: map<Block, Option<Block>>,
                      cells1: map<Block, seq<Option<T>>>, dequeued1: map<Block, nat>, next1: map<Block, Option<Block>>,
                      cells2: map<Block, seq<Option<T>>>)
    requires OwnLaw(blocks, out) && q !in blocks && b !in out
    requires MemoryKept(out, cells, dequeued, next, cells1, dequeued1, next1)
    requires WroteOnly(b, cells1, cells2)
    ensures OthersUntouched(out, blocks.Values, cells, dequeued, out + {b}, blocks[q := b].Values, cells2, dequeued1)
  {
    ValuesWith(blocks, q, b);
    assert (out + {b}) - (blocks.Values + {b}) == out - blocks.Values;
  }

  ghost predicate WroteOnly<T>(b: Block, cells: map<Block, seq<Option<T>>>, cells': map<Block, seq<Option<T>>>) {
    cells'.Keys == cells.Keys && forall c | c in cells && c != b :: cells'[c] == cells[c]
  }

  ghost predicate WroteOwn<T>(own: set<Block>, cells: map<Block, seq<Option<T>>>, cells': map<Block, seq<Option<T>>>) {
    cells'.Keys == cells.Keys && forall c | c in cells && c !in own :: cells'[c] == cells[c]
  }

  /** Taking nothing, and writing one of one's own blocks. */
  lemma WrittenIsOwn<T>(own: set<Block>, b: Block, out: set<Block>,
                        cells: map<Block, seq<Option<T>>>, dequeued: map<Block, nat>, next: map<Block, Option<Block>>,
                        cells1: map<Block, seq<Option<T>>>, dequeued1: map<Block, nat>, next1: map<Block, Option<Block>>,
                        cells2: map<Block, seq<Option<T>>>)
    requires MemoryKept(out, cells, dequeued, next, cells1, dequeued1, next1)
    requires cells2 == cells1 || (b in own && WroteOnly(b, cells1, cells2))
    ensures OthersUntouched(out, own, cells, dequeued, out, own, cells2, dequeued1)
  {}

  lemma OthersStayUntouched<T>(out: set<Block>, own: set<Block>, cells: map<Block, seq<Option<T>>>,
                               dequeued: map<Block, nat>,
                               out1: set<Block>, own1: set<Block>, cells1: map<Block, seq<Option<T>>>, dequeued1: map<Block, nat>,
                               out2: set<Block>, own2: set<Block>, cells2: map<Block, seq<Option<T>>>, dequeued2: map<Block, nat>)
    requires OthersUntouched(out, own, cells, dequeued, out1, own1, cells1, dequeued1)
    requires OthersUntouched(out1, own1, cells1, dequeued1, out2, own2, cells2, dequeued2)
    ensures OthersUntouched(out, own, cells, dequeued, out2, own2, cells2, dequeued2)
  {}

  /** Claiming n moves the optimistic count and the head together. */
  lemma AddingToBoth(optimistic: Index, over: Index, n: int)
    ensures Sub(Add(optimistic, n), over) == Add(Sub(optimistic, over), n)
  {
    WrapAgain(0 - over, optimistic + n);
    WrapAgain(n, optimistic - over);
  }

  // ---- Counting reads and releasing blocks ---------------------------------------------

  lemma HeadBlock(head: nat, moved: nat)
    requires head % BLOCK_SIZE + moved <= BLOCK_SIZE
    ensures Emptied(head, head / BLOCK_SIZE) == head % BLOCK_SIZE
    ensures (head + moved) / BLOCK_SIZE == head / BLOCK_SIZE + (if head % BLOCK_SIZE + moved == BLOCK_SIZE then 1 else 0)
    ensures forall q: nat | q > head / BLOCK_SIZE :: Emptied(head + moved, q) == Emptied(head, q) == 0
    ensures head % BLOCK_SIZE + moved < BLOCK_SIZE ==> Emptied(head + moved, head / BLOCK_SIZE) == head % BLOCK_SIZE + moved
  {}

  /** Counting the reads of one block. */
  lemma CountingKeeps(dequeued: map<Block, nat>, blocks: map<nat, Block>, out: set<Block>, head: nat, moved: nat)
    requires CountLaw(dequeued, blocks, head) && head / BLOCK_SIZE in blocks && head % BLOCK_SIZE + moved <= BLOCK_SIZE
    requires OwnLaw(blocks, out)
    requires forall q | q in blocks :: q >= head / BLOCK_SIZE
    ensures var b := blocks[head / BLOCK_SIZE]; b in dequeued && dequeued[b] == head % BLOCK_SIZE
    ensures var b := blocks[head / BLOCK_SIZE];
            var dequeued' := dequeued[b := dequeued[b] + moved];
            if head % BLOCK_SIZE + moved < BLOCK_SIZE then CountLaw(dequeued', blocks, head + moved)
            else CountLaw(dequeued', blocks - {head / BLOCK_SIZE}, head + moved)
  {
    HeadBlock(head, moved);
  }

  /** A block whose elements have all been moved out is blank, and the rest can do without it. */
  lemma DrainedIsBlank<T>(cells: map<Block, seq<Option<T>>>, blocks: map<nat, Block>, q: nat, head: nat,
                          contents: seq<T>)
    requires CellsLaw(cells, blocks, head, contents) && q in blocks && head == (q + 1) * BLOCK_SIZE
    ensures IsBlank(cells, blocks[q]) && CellsLaw(cells, blocks - {q}, head, contents)
  {
    assert BlockHolds(cells, blocks[q], q, head, contents);
  }

  lemma ValuesWithout(blocks: map<nat, Block>, q: nat)
    requires q in blocks && forall r, t | r in blocks && t in blocks && r != t :: blocks[r] != blocks[t]
    ensures (blocks - {q}).Values == blocks.Values - {blocks[q]}
  {
    var blocks' := blocks - {q};
    forall c ensures c in blocks'.Values <==> c in blocks.Values - {blocks[q]} {
      if c in blocks.Values && c != blocks[q] {
        var r :| r in blocks && blocks[r] == c;
        assert r in blocks' && blocks'[r] == c;
      }
    }
  }

  ghost predicate CountedOnly(b: Block, dequeued: map<Block, nat>, dequeued': map<Block, nat>) {
    dequeued'.Keys == dequeued.Keys && forall c | c in dequeued && c != b :: dequeued'[c] == dequeued[c]
  }

  ghost predicate AllPresent<T>(out: set<Block>, cells: map<Block, seq<Option<T>>>, dequeued: map<Block, nat>) {
    forall b | b in out :: b in cells && b in dequeued
  }

  /** Reading one's own block, and perhaps handing it back, is nothing to others. */
  lemma ReleasedIsOwn<T>(blocks: map<nat, Block>, q: nat, out: set<Block>, cells: map<Block, seq<Option<T>>>,
                         dequeued: map<Block, nat>,
                         cells': map<Block, seq<Option<T>>>, dequeued': map<Block, nat>)
    requires OwnLaw(blocks, out) && q in blocks && AllPresent(out, cells, dequeued)
    requires WroteOnly(blocks[q], cells, cells') && CountedOnly(blocks[q], dequeued, dequeued')
    ensures OthersUntouched(out, blocks.Values, cells, dequeued, out, blocks.Values, cells', dequeued')
    ensures OthersUntouched(out, blocks.Values, cells, dequeued, out - {blocks[q]}, (blocks - {q}).Values, cells', dequeued')
    ensures blocks[q] in out && OwnLaw(blocks - {q}, out - {blocks[q]})
  {
    ValuesWithout(blocks, q);
    assert (out - {blocks[q]}) - (blocks.Values - {blocks[q]}) == out - blocks.Values;
  }

  // ---- Bulk enqueue ------------------------------------------------------------------

  ghost predicate LinksTo(next: map<Block, Option<Block>>, blocks: map<nat, Block>, q: nat) {
    q in blocks && q + 1 in blocks && blocks[q] in next && next[blocks[q]] == Some(blocks[q + 1])
  }

  /** The next pointers lead from block lo through every later one to block count - 1. */
  ghost predicate Chained(next: map<Block, Option<Block>>, blocks: map<nat, Block>, lo: nat, count: nat) {
    forall q | lo <= q < count - 1 :: LinksTo(next, blocks, q)
  }

  ghost predicate LastLink(next: map<Block, Option<Block>>, blocks: map<nat, Block>, q: nat) {
    q in blocks && blocks[q] in next && next[blocks[q]] == None
  }

  /** The blocks with numbers in [lo, hi). */
  ghost function Span(blocks: map<nat, Block>, lo: nat, hi: nat): set<Block> {
    set q | q in blocks && lo <= q < hi :: blocks[q]
  }

  /** Content and counters of a set of blocks are as they were. */
  ghost predicate SameStorage<T>(out: set<Block>, cells: map<Block, seq<Option<T>>>, dequeued: map<Block, nat>,
                                 cells': map<Block, seq<Option<T>>>, dequeued': map<Block, nat>) {
    forall b | b in out :: b in cells && b in cells' && b in dequeued && b in dequeued' && cells'[b] == cells[b] && dequeued'[b] == dequeued[b]
  }

  /** What a bulk enqueue has taken so far, compared with how it started. */
  ghost predicate Taken(blocks0: map<nat, Block>, out0: set<Block>, n0: nat, blocks: map<nat, Block>, out: set<Block>,
                        count: nat) {
    && n0 <= count
    && (forall q | q in blocks0 :: q < n0 && q in blocks && blocks[q] == blocks0[q])
    && (forall q | q in blocks && q < n0 :: q in blocks0)
    && (forall q | n0 <= q < count :: q in blocks && blocks[q] !in out0)
    && out == out0 + Span(blocks, n0, count)
  }

  lemma TakeOneMore(blocks0: map<nat, Block>, out0: set<Block>, n0: nat, blocks: map<nat, Block>, out: set<Block>,
                    count: nat, b: Block)
    requires Taken(blocks0, out0, n0, blocks, out, count) && b !in out && count !in blocks
    ensures Taken(blocks0, out0, n0, blocks[count := b], out + {b}, count + 1)
  {
    var blocks' := blocks[count := b];
    forall c ensures c in Span(blocks', n0, count + 1) <==> c in Span(blocks, n0, count) + {b} {
      if c in Span(blocks, n0, count) {
        var q :| q in blocks && n0 <= q < count && blocks[q] == c;
        assert blocks'[q] == c;
      }
      assert blocks'[count] == b;
    }
    assert Span(blocks', n0, count + 1) == Span(blocks, n0, count) + {b};
    assert out + {b} == out0 + (Span(blocks, n0, count) + {b});
  }

  lemma OutGrows(blocks0: map<nat, Block>, out0: set<Block>, n0: nat, blocks: map<nat, Block>, out: set<Block>,
                 count: nat)
    requires Taken(blocks0, out0, n0, blocks, out, count)
    ensures out0 <= out && n0 <= count
  {}

  /** Taking nothing away but what was taken leaves what there was. */
  lemma GiveAllBack(blocks0: map<nat, Block>, out0: set<Block>, n0: nat, blocks: map<nat, Block>, out: set<Block>,
                    count: nat)
    requires Taken(blocks0, out0, n0, blocks, out, count)
    ensures (map q | q in blocks && q < n0 :: blocks[q]) == blocks0
    ensures out - Span(blocks, n0, count) == out0
  {}

  lemma ShorterChain(next: map<Block, Option<Block>>, blocks: map<nat, Block>, lo: nat, from: nat, count: nat)
    requires Chained(next, blocks, lo, count) && lo <= from
    ensures Chained(next, blocks, from, count)
  {}

  lemma ChainStep(next: map<Block, Option<Block>>, blocks: map<nat, Block>, lo: nat, count: nat, q: nat)
    requires Chained(next, blocks, lo, count) && lo <= q < count - 1
    ensures LinksTo(next, blocks, q)
  {}

  lemma SameIsUntouched<T>(out: set<Block>, own: set<Block>, cells: map<Block, seq<Option<T>>>,
                           dequeued: map<Block, nat>,
                           cells1: map<Block, seq<Option<T>>>, dequeued1: map<Block, nat>)
    requires SameStorage(out, cells, dequeued, cells1, dequeued1)
    ensures OthersUntouched(out, own, cells, dequeued, out, own, cells1, dequeued1)
  {}

  /** A turn of the fill loop ends the batch in its last block, and otherwise at the start of the next one,
      which the chain leads to. */
  lemma TurnEnds(next: map<Block, Option<Block>>, blocks: map<nat, Block>, out: set<Block>, lo: nat, count: nat,
                 at: nat, end: nat)
    requires OwnLaw(blocks, out) && at < end && count > 0 && (end - 1) / BLOCK_SIZE == count - 1
    requires lo <= at / BLOCK_SIZE
    requires at / BLOCK_SIZE in blocks && count - 1 in blocks && (lo < count - 1 ==> Chained(next, blocks, lo, count))
    ensures blocks[at / BLOCK_SIZE] == blocks[count - 1] ==> StopAt(at, end) == end
    ensures blocks[at / BLOCK_SIZE] != blocks[count - 1] ==>
              && StopAt(at, end) < end && StopAt(at, end) / BLOCK_SIZE == at / BLOCK_SIZE + 1 && at / BLOCK_SIZE + 1 in blocks
              && blocks[at / BLOCK_SIZE] in next && next[blocks[at / BLOCK_SIZE]] == Some(blocks[at / BLOCK_SIZE + 1])
  {
    StopAdvances(at, end);
    SameBlock(blocks, out, at / BLOCK_SIZE, count - 1);
    if blocks[at / BLOCK_SIZE] != blocks[count - 1] {
      ChainStep(next, blocks, lo, count, at / BLOCK_SIZE);
    }
  }

  lemma SameBlock(blocks: map<nat, Block>, out: set<Block>, q: nat, r: nat)
    requires OwnLaw(blocks, out) && q in blocks && r in blocks
    ensures blocks[q] == blocks[r] <==> q == r
  {}

  lemma WroteNothing<T>(own: set<Block>, cells: map<Block, seq<Option<T>>>)
    ensures WroteOwn(own, cells, cells)
  {}

  lemma WroteOwnMore<T>(own: set<Block>, cells: map<Block, seq<Option<T>>>, cells1: map<Block, seq<Option<T>>>,
                        cells2: map<Block, seq<Option<T>>>)
    requires WroteOwn(own, cells, cells1) && WroteOwn(own, cells1, cells2)
    ensures WroteOwn(own, cells, cells2)
  {}

  lemma NoChain(next: map<Block, Option<Block>>, blocks: map<nat, Block>, lo: nat, count: nat)
    requires lo >= count - 1
    ensures Chained(next, blocks, lo, count)
  {}

  /** All the blocks, when none lies outside the span. */
  lemma SpanIsAll(blocks: map<nat, Block>, from: nat, count: nat)
    requires forall q | q in blocks :: from <= q < count
    ensures Span(blocks, from, count) == blocks.Values
  {
    forall c ensures c in Span(blocks, from, count) <==> c in blocks.Values {
      if c in blocks.Values {
        var q :| q in blocks && blocks[q] == c;
      }
    }
  }

  lemma NoSpan(blocks: map<nat, Block>, q: nat)
    ensures Span(blocks, q, q) == {}
  {}

  lemma OpenIsOut(blocks: map<nat, Block>, out0: set<Block>, first: nat, open: nat)
    requires OwnLaw(blocks, out0) && open in blocks && first <= open
    ensures blocks[open] in out0 && blocks[open] !in Span(blocks, first, open)
    ensures Span(blocks, first, open + 1) == Span(blocks, first, open) + {blocks[open]}
    ensures Span(blocks, first, first) == {}
  {}

  /** The block open at the end, and where the tail block is if nothing is left. */
  lemma LastBlockIs(head: nat, tail: nat)
    requires head <= tail
    ensures head < tail ==> (tail - 1) / BLOCK_SIZE == Published(tail) - 1
    ensures head == tail && tail % BLOCK_SIZE != 0 ==> head / BLOCK_SIZE == Published(tail) - 1
    ensures head == tail && tail % BLOCK_SIZE == 0 ==> head / BLOCK_SIZE == Published(tail)
  {}

  /** From one element to the next, across a block boundary or not. */
  lemma Onward(head: nat, n: nat)
    ensures n > 0 && (head + n) % BLOCK_SIZE == 0 ==> (head + n - 1) / BLOCK_SIZE + 1 == (head + n) / BLOCK_SIZE && head + n == ((head + n - 1) / BLOCK_SIZE + 1) * BLOCK_SIZE
    ensures n > 0 && (head + n) % BLOCK_SIZE != 0 ==> (head + n - 1) / BLOCK_SIZE == (head + n) / BLOCK_SIZE
    ensures n > 0 ==> head / BLOCK_SIZE <= (head + n - 1) / BLOCK_SIZE
    ensures head + n + 1 - 1 == head + n
  {}

  /** Block q is not among those before it, and is the next to join them. */
  lemma StillOut(blocks: map<nat, Block>, from: nat, q: nat)
    requires from <= q && q in blocks && forall r, t | r in blocks && t in blocks && r != t :: blocks[r] != blocks[t]
    ensures blocks[q] !in Span(blocks, from, q)
    ensures Span(blocks, from, q + 1) == Span(blocks, from, q) + {blocks[q]}
  {}

  /** Where the next pointer of block q leads. */
  lemma NextInChain(next: map<Block, Option<Block>>, blocks: map<nat, Block>, from: nat, count: nat, q: nat)
    requires from <= q < count && Chained(next, blocks, from, count) && LastLink(next, blocks, count - 1)
    ensures q in blocks && blocks[q] in next
    ensures q + 1 < count ==> q + 1 in blocks && next[blocks[q]] == Some(blocks[q + 1])
    ensures q + 1 == count ==> next[blocks[q]] == None
  {
    if q < count - 1 {
      assert LinksTo(next, blocks, q);
    }
  }

  /** Where the links go when block b is put after block count - 1. */
  function Linked(next: map<Block, Option<Block>>, blocks: map<nat, Block>, count: nat, b: Block,
                  linksBack: bool): map<Block, Option<Block>>
    requires linksBack ==> count > 0 && count - 1 in blocks
  {
    if linksBack then next[b := None][blocks[count - 1] := Some(b)] else next[b := None]
  }

  lemma LinkKeepsChain<T>(out: set<Block>, blocks: map<nat, Block>, lo: nat, count: nat, b: Block, linksBack: bool,
                          cells: map<Block, seq<Option<T>>>, dequeued: map<Block, nat>, next: map<Block, Option<Block>>,
                          cells1: map<Block, seq<Option<T>>>, dequeued1: map<Block, nat>, next1: map<Block, Option<Block>>)
    requires OwnLaw(blocks, out) && b !in out && count !in blocks && Chained(next, blocks, lo, count)
    requires MemoryKept(out, cells, dequeued, next, cells1, dequeued1, next1)
    requires (linksBack <==> lo < count) && (linksBack ==> count - 1 in blocks)
    ensures Chained(Linked(next1, blocks, count, b, linksBack), blocks[count := b], lo, count + 1)
    ensures LastLink(Linked(next1, blocks, count, b, linksBack), blocks[count := b], count)
  {
    var next', blocks' := Linked(next1, blocks, count, b, linksBack), blocks[count := b];
    forall q | lo <= q < count ensures LinksTo(next', blocks', q) {
      if q < count - 1 {
        assert LinksTo(next, blocks, q);
      }
    }
  }

  lemma KeptIsSame<T>(out0: set<Block>, cells0: map<Block, seq<Option<T>>>, dequeued0: map<Block, nat>, out: set<Block>,
                      cells: map<Block, seq<Option<T>>>, dequeued: map<Block, nat>, next: map<Block, Option<Block>>,
                      cells1: map<Block, seq<Option<T>>>, dequeued1: map<Block, nat>, next1: map<Block, Option<Block>>)
    requires out0 <= out && SameStorage(out0, cells0, dequeued0, cells, dequeued)
    requires MemoryKept(out, cells, dequeued, next, cells1, dequeued1, next1)
    ensures SameStorage(out0, cells0, dequeued0, cells1, dequeued1)
  {}

  /** The blocks that count elements from `start` on need. */
  lemma BulkNeeds(start: nat, count: nat)
    ensures Published(start + count) == Published(start) + BlockStarts(start, count)
    ensures FloorBase(start - 1) == (Published(start) - 1) * BLOCK_SIZE
    ensures count > 0 ==> Published(start + count) - 1 == (start + count - 1) / BLOCK_SIZE
  {
    FloorBaseCountsStarts(start, count);
  }

  /** Fewer blocks hold the same, if those left out are ahead of the tail. */
  lemma FewerHold<T>(cells: map<Block, seq<Option<T>>>, dequeued: map<Block, nat>, out: set<Block>,
                     blocks: map<nat, Block>, head: nat, contents: seq<T>,
                     blocks0: map<nat, Block>, out0: set<Block>, n0: nat, count: nat)
    requires OwnLaw(blocks0, out0) && CellsLaw(cells, blocks, head, contents) && CountLaw(dequeued, blocks, head)
    requires Taken(blocks0, out0, n0, blocks, out, count)
    ensures OwnLaw(blocks0, out0) && CellsLaw(cells, blocks0, head, contents) && CountLaw(dequeued, blocks0, head)
  {}

  /** The base that both loops over new blocks start from, one block before the first. */
  lemma StartBase(start: nat)
    ensures BlockBase(Sub(Wrap(start), 1)) == Wrap((Published(start) - 1) * BLOCK_SIZE)
  {
    BaseOfWrapped(start, -1);
    BulkNeeds(start, 0);
  }

  /** Taking any number of blocks and then writing one's own only. */
  lemma BulkIsOwn<T>(blocks0: map<nat, Block>, out0: set<Block>, n0: nat, cells0: map<Block, seq<Option<T>>>,
                     dequeued0: map<Block, nat>,
                     blocks: map<nat, Block>, out: set<Block>, count: nat, cells1: map<Block, seq<Option<T>>>, dequeued1: map<Block, nat>,
                     cells2: map<Block, seq<Option<T>>>)
    requires Taken(blocks0, out0, n0, blocks, out, count) && (forall q | q in blocks :: q < count) && OwnLaw(blocks0, out0)
    requires SameStorage(out0, cells0, dequeued0, cells1, dequeued1) && WroteOwn(blocks.Values, cells1, cells2)
    requires OwnLaw(blocks, out)
    ensures OthersUntouched(out0, blocks0.Values, cells0, dequeued0, out, blocks.Values, cells2, dequeued1)
  {
    forall c ensures c in blocks.Values <==> c in blocks0.Values + Span(blocks, n0, count) {
      if c in blocks0.Values {
        var q :| q in blocks0 && blocks0[q] == c;
        assert blocks[q] == c;
      }
      if c in blocks.Values {
        var q :| q in blocks && blocks[q] == c;
        assert q < n0 ==> blocks0[q] == c;
      }
    }
    assert blocks.Values == blocks0.Values + Span(blocks, n0, count);
    assert out - blocks.Values == out0 - blocks0.Values;
  }

  lemma NothingIsBlank<T>(cells: map<Block, seq<Option<T>>>, blocks: map<nat, Block>, head: nat, contents: seq<T>,
                          q: nat)
    requires CellsLaw(cells, blocks, head, contents) && q in blocks && contents == []
    ensures IsBlank(cells, blocks[q])
  {
    assert BlockHolds(cells, blocks[q], q, head, contents);
  }

  lemma AheadIsBlank<T>(cells: map<Block, seq<Option<T>>>, blocks: map<nat, Block>, head: nat, contents: seq<T>, q: nat)
    requires CellsLaw(cells, blocks, head, contents) && q in blocks && head + |contents| <= q * BLOCK_SIZE
    ensures IsBlank(cells, blocks[q])
  {
    assert BlockHolds(cells, blocks[q], q, head, contents);
  }

  lemma ExactCount(head: nat, k: nat)
    requires k <= BLOCK_SIZE
    ensures Sub(Wrap(head + k), Wrap(head)) == k
  {
    SubIsWrapped(head + k, head);
    WrapIs(k, 0, k);
  }

  /** A turn stays within the block and, short of the end, finishes it. */
  lemma StopFits(at: nat, end: nat)
    requires at <= end
    ensures at <= StopAt(at, end) <= end && at % BLOCK_SIZE + (StopAt(at, end) - at) <= BLOCK_SIZE
    ensures at < end ==> at < StopAt(at, end)
    ensures StopAt(at, end) < end ==> StopAt(at, end) / BLOCK_SIZE == at / BLOCK_SIZE + 1
  {}
}
