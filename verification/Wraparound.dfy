/** Index arithmetic on 64-bit counters that wrap.

    The queue computes with `index_t` values modulo 2^64 and compares them with
    circular_less_than.  Here the machine expressions are written out on wrapped
    values, and each is shown to be the image of the same expression on unbounded
    integers, which is what the other modules compute with. */
module Wraparound {
  import opened Modular

  const INDEX_RANGE: int := 0x1_0000_0000_0000_0000
  const HALF: int := 0x8000_0000_0000_0000
  const BLOCK_SIZE: int := 32

  type Index = x: nat | x < INDEX_RANGE

  /** Conversion to index_t. */
  function Wrap(x: int): Index { x % INDEX_RANGE }

  function Add(a: int, b: int): Index { Wrap(a + b) }
  function Sub(a: int, b: int): Index { Wrap(a - b) }

  predicate CircularLess(a: Index, b: Index) { Sub(a, b) > HALF }

  /** `x & ~(BLOCK_SIZE - 1)`. */
  function BlockBase(x: Index): Index { x - x % BLOCK_SIZE }

  /** The unbounded counterpart, which rounds down also below zero. */
  function FloorBase(x: int): int { x - x % BLOCK_SIZE }

  /** Conversion of index_t to its signed type, and signed division, which truncates. */
  function ToSigned(x: Index): int { if x < HALF then x else x - INDEX_RANGE }
  function TruncatedQuotient(a: int, b: int): int
    requires b > 0
  {
    if a >= 0 then a / b else -(-a / b)
  }

  // ---- circular_less_than ------------------------------------------------------------

  lemma WrapIs(x: int, q: int, r: int)
    requires x == INDEX_RANGE * q + r && 0 <= r < INDEX_RANGE
    ensures Wrap(x) == r
  {}

  /** Wrapping early or late makes no difference. */
  lemma WrapAgain(a: int, b: int)
    ensures Wrap(a + Wrap(b)) == Wrap(a + b)
    ensures Wrap(a - Wrap(b)) == Wrap(a - b)
  {
    var q, r := b / INDEX_RANGE, Wrap(b);
    var c, d := (a + r) / INDEX_RANGE, (a - r) / INDEX_RANGE;
    WrapIs(a + b, c + q, Wrap(a + r));
    WrapIs(a - b, d - q, Wrap(a - r));
  }

  lemma AddIsWrapped(a: int, n: int)
    ensures Add(Wrap(a), n) == Wrap(a + n)
  {
    WrapAgain(n, a);
  }

  lemma SubIsWrapped(a: int, b: int)
    ensures Sub(Wrap(a), Wrap(b)) == Wrap(a - b)
    ensures Add(Wrap(a), Wrap(b)) == Wrap(a + b)
  {
    WrapAgain(Wrap(a), b);
    WrapAgain(-b, a);
    WrapAgain(b, a);
  }

  /** Within half the index range either way, circular_less_than is < , except at the distance of
      exactly half the range, where it answers false both ways. */
  lemma CircularLessIsLess(a: int, b: int)
    requires -HALF <= a - b <= HALF
    ensures CircularLess(Wrap(a), Wrap(b)) <==> a < b && b - a != HALF
  {
    SubIsWrapped(a, b);
  }

  /** The two guards of the dequeue functions ask the same thing, whatever the counters are:
      dequeue compares the effective count with the tail, dequeue_bulk their difference with zero. */
  lemma GuardsAgree(count: Index, tail: Index)
    ensures CircularLess(count, tail) <==> CircularLess(0, Sub(tail, count))
  {}

  /** For a tail not half the range ahead nor behind, dequeue_bulk's unsigned difference is the true one
      when its guard passes. */
  lemma DifferenceIsExact(tail: int, count: int)
    requires -HALF < tail - count < HALF
    ensures CircularLess(0, Sub(Wrap(tail), Wrap(count))) <==> tail - count > 0
    ensures tail - count >= 0 ==> Sub(Wrap(tail), Wrap(count)) == tail - count
  {
    SubIsWrapped(tail, count);
    var d := tail - count;
    if d >= 0 {
      WrapIs(d, 0, d);
      WrapIs(0 - d, if d == 0 then 0 else -1, if d == 0 then 0 else INDEX_RANGE - d);
    } else {
      WrapIs(d, -1, INDEX_RANGE + d);
      WrapIs(0 - (INDEX_RANGE + d), -1, 0 - d);
    }
  }

  // ---- Leeway ------------------------------------------------------------------------

  /** Where the block that `tail` is in ends; `tail` itself on a boundary. */
  function BlockEnd(tail: nat): nat { if tail % BLOCK_SIZE == 0 then tail else FloorBase(tail) + BLOCK_SIZE }

  /** A producer that enqueues one element at a time and checks for leeway at each block start. */
  ghost predicate ProducerNext(tail: nat, head: nat, tail': nat, head': nat) {
    || (tail' == tail && head <= head' <= tail)
    || (head' == head && tail' == tail + 1 &&
        (tail % BLOCK_SIZE == 0 ==> CircularLess(Wrap(head), Wrap(tail + BLOCK_SIZE))))
  }

  ghost predicate ProducerRun(tails: seq<nat>, heads: seq<nat>) {
    && 0 < |tails| == |heads| && tails[0] == heads[0] == 0
    && forall i | 0 <= i < |tails| - 1 :: ProducerNext(tails[i], heads[i], tails[i + 1], heads[i + 1])
  }

  lemma LeewayCheck(tail: nat, head: nat)
    requires head <= tail && tail - head <= HALF
    ensures CircularLess(Wrap(head), Wrap(tail + BLOCK_SIZE)) <==> tail + BLOCK_SIZE - head < HALF
  {
    SubIsWrapped(head, tail + BLOCK_SIZE);
    WrapIs(head - tail - BLOCK_SIZE, -1, INDEX_RANGE - (tail + BLOCK_SIZE - head));
  }

  lemma NextBlockEnd(tail: nat)
    ensures BlockEnd(tail + 1) == (if tail % BLOCK_SIZE == 0 then tail + BLOCK_SIZE else BlockEnd(tail))
    ensures tail <= BlockEnd(tail)
  {
    assert tail == BLOCK_SIZE * (tail / BLOCK_SIZE) + tail % BLOCK_SIZE;
    assert tail + 1 == BLOCK_SIZE * ((tail + 1) / BLOCK_SIZE) + (tail + 1) % BLOCK_SIZE;
  }

  lemma LeewayStep(tail: nat, head: nat, tail': nat, head': nat)
    requires head <= tail && BlockEnd(tail) - head < HALF && ProducerNext(tail, head, tail', head')
    ensures head' <= tail' && BlockEnd(tail') - head' < HALF
  {
    NextBlockEnd(tail);
    LeewayCheck(tail, head);
    hide CircularLess, Wrap, BlockEnd;
  }

  /** The leeway check keeps the whole tail block less than half the index range ahead of the head,
      so the check itself and size_approx read the true order of head and tail. */
  lemma {:induction false} LeewayKeepsHalf(tails: seq<nat>, heads: seq<nat>, i: nat)
    requires ProducerRun(tails, heads) && i < |tails|
    ensures heads[i] <= tails[i] && BlockEnd(tails[i]) - heads[i] < HALF
    ensures CircularLess(Wrap(heads[i]), Wrap(tails[i] + BLOCK_SIZE)) <==> tails[i] + BLOCK_SIZE - heads[i] < HALF
    ensures CircularLess(Wrap(heads[i]), Wrap(tails[i])) <==> heads[i] < tails[i]
  {
    if i > 0 {
      LeewayKeepsHalf(tails, heads, i - 1);
      LeewayStep(tails[i - 1], heads[i - 1], tails[i], heads[i]);
    }
    LeewayCheck(tails[i], heads[i]);
    CircularLessIsLess(heads[i], tails[i]);
  }

  // ---- Finding a block in a ring -----------------------------------------------------

  lemma BlockBaseIsFloor(x: int)
    ensures BlockBase(Wrap(x)) == Wrap(FloorBase(x))
  {
    assert x % BLOCK_SIZE == Wrap(x) % BLOCK_SIZE;
  }

  /** The block offset that a consumer computes: a wrapped difference, divided as a signed number. */
  function BlockOffset(base: Index, headBase: Index): Index {
    Wrap(TruncatedQuotient(ToSigned(Sub(base, headBase)), BLOCK_SIZE))
  }

  /** It is the true difference of block numbers, ahead or behind, across any wrap. */
  lemma BlockOffsetIsExact(block: int, headBlock: int)
    requires -HALF <= (block - headBlock) * BLOCK_SIZE < HALF
    ensures BlockOffset(Wrap(block * BLOCK_SIZE), Wrap(headBlock * BLOCK_SIZE)) == Wrap(block - headBlock)
  {
    SubIsWrapped(block * BLOCK_SIZE, headBlock * BLOCK_SIZE);
    var d := (block - headBlock) * BLOCK_SIZE;
    assert d == block * BLOCK_SIZE - headBlock * BLOCK_SIZE;
    assert ToSigned(Wrap(d)) == d;
  }

  lemma WrapKeepsSlot(x: int, size: nat)
    requires size > 0 && INDEX_RANGE % size == 0
    ensures Wrap(x) % size == x % size
  {
    var k := INDEX_RANGE / size;
    assert INDEX_RANGE == size * k + INDEX_RANGE % size;
    assert k * size == size * k;
    ModOfMultiple(x, size, k);
  }

  /** The ring slot that a consumer computes, `(front + offset) & (size - 1)`, for a ring whose size
      divides the index range. */
  lemma RingSlotIsExact(front: nat, block: int, headBlock: int, size: nat)
    requires size > 0 && INDEX_RANGE % size == 0
    requires -HALF <= (block - headBlock) * BLOCK_SIZE < HALF
    ensures Add(front, BlockOffset(Wrap(block * BLOCK_SIZE), Wrap(headBlock * BLOCK_SIZE))) % size == (front + block - headBlock) % size
  {
    BlockOffsetIsExact(block, headBlock);
    hide BlockOffset;
    WrapAgain(front, block - headBlock);
    WrapKeepsSlot(front + (block - headBlock), size);
  }

  // ---- Bulk enqueue ------------------------------------------------------------------

  /** How many block starts lie in [start, start + count). */
  function BlockStarts(start: nat, count: nat): nat {
    if count == 0 then 0
    else BlockStarts(start, count - 1) + if (start + count - 1) % BLOCK_SIZE == 0 then 1 else 0
  }

  /** The blockBaseDiff of enqueue_bulk, on wrapped values. */
  function BlockBaseDiff(start: Index, count: Index): Index {
    Sub(BlockBase(Wrap(start + count - 1)), BlockBase(Wrap(start - 1)))
  }

  lemma StartsBound(start: nat, count: nat)
    ensures BLOCK_SIZE * BlockStarts(start, count) < count + BLOCK_SIZE
  {
    FloorBaseCountsStarts(start, count);
  }

  lemma FloorBaseStep(x: int)
    ensures FloorBase(x) - FloorBase(x - 1) == (if x % BLOCK_SIZE == 0 then BLOCK_SIZE else 0)
  {
    assert x == BLOCK_SIZE * (x / BLOCK_SIZE) + x % BLOCK_SIZE;
    assert x - 1 == BLOCK_SIZE * ((x - 1) / BLOCK_SIZE) + (x - 1) % BLOCK_SIZE;
  }

  lemma {:induction false} FloorBaseCountsStarts(start: nat, count: nat)
    ensures FloorBase(start + count - 1) - FloorBase(start - 1) == BLOCK_SIZE * BlockStarts(start, count)
  {
    if count > 0 {
      FloorBaseCountsStarts(start, count - 1);
      FloorBaseStep(start + count - 1);
    }
  }

  lemma BaseOfWrapped(start: int, d: int)
    ensures BlockBase(Wrap(Wrap(start) + d)) == Wrap(FloorBase(start + d))
  {
    WrapAgain(d, start);
    assert Wrap(start) + d == d + Wrap(start) && d + start == start + d;
    BlockBaseIsFloor(start + d);
  }

  /** blockBaseDiff is BLOCK_SIZE times the number of blocks to allocate, wherever the tail has got to
      and although `start - 1` wraps when it is zero. */
  lemma BlockBaseDiffCountsStarts(start: nat, count: nat)
    requires count < HALF
    ensures BlockBaseDiff(Wrap(start), count) == BLOCK_SIZE * BlockStarts(start, count)
  {
    BaseOfWrapped(start, count - 1);
    BaseOfWrapped(start, -1);
    var high, low := FloorBase(start + count - 1), FloorBase(start - 1);
    FloorBaseCountsStarts(start, count);
    StartsBound(start, count);
    SubIsWrapped(high, low);
    WrapIs(high - low, 0, BLOCK_SIZE * BlockStarts(start, count));
  }

  /** Where the k-th element of a bulk enqueue goes: which of the blocks it fills, and at which index. */
  function Target(start: nat, k: nat): (nat, Index) {
    ((start + k) / BLOCK_SIZE - start / BLOCK_SIZE, Wrap(start + k))
  }

  lemma LastBlock(start: nat, count: nat)
    requires count > 0
    ensures BlockStarts(start, count) + (if start % BLOCK_SIZE == 0 then 0 else 1) == (start + count - 1) / BLOCK_SIZE - start / BLOCK_SIZE + 1
  {
    FloorBaseCountsStarts(start, count);
    FloorBaseStep(start);
  }

  lemma SameWithinRange(a: nat, b: nat)
    requires a <= b < a + INDEX_RANGE && Wrap(a) == Wrap(b)
    ensures a == b
  {
    var d := b / INDEX_RANGE - a / INDEX_RANGE;
    assert b - a == INDEX_RANGE * d;
  }

  /** The inner loop: fill one block up to `stop`. */
  method FillBlock(block: nat, from: Index, stop: Index, ghost start: nat, ghost at: nat, ghost end: nat)
    returns (writes: seq<(nat, Index)>)
    requires from == Wrap(at) && stop == Wrap(end) && start <= at <= end <= FloorBase(at) + BLOCK_SIZE
    requires block == at / BLOCK_SIZE - start / BLOCK_SIZE
    ensures |writes| == end - at && forall k | 0 <= k < |writes| :: writes[k] == Target(start, at - start + k)
  {
    var current := from;
    writes := [];
    ghost var now := at;
    while current != stop
      invariant at <= now <= end && current == Wrap(now)
      invariant |writes| == now - at && forall k | 0 <= k < |writes| :: writes[k] == Target(start, at - start + k)
      decreases end - now
    {
      assert now < end;
      assert now / BLOCK_SIZE == at / BLOCK_SIZE;
      writes := writes + [(block, current)];
      WrapAgain(1, now);
      current := Add(current, 1);
      now := now + 1;
    }
    SameWithinRange(now, end);
  }

  /** Where the block at `at`, or the whole batch, stops. */
  function StopAt(at: nat, end: nat): nat { if end < FloorBase(at) + BLOCK_SIZE then end else FloorBase(at) + BLOCK_SIZE }

  lemma StopAdvances(at: nat, end: nat)
    requires at < end
    ensures at < StopAt(at, end) <= end && StopAt(at, end) <= FloorBase(at) + BLOCK_SIZE
    ensures StopAt(at, end) < end ==> StopAt(at, end) % BLOCK_SIZE == 0 && StopAt(at, end) / BLOCK_SIZE == at / BLOCK_SIZE + 1
    ensures StopAt(at, end) == end ==> (end - 1) / BLOCK_SIZE == at / BLOCK_SIZE
    ensures StopAt(at, end) < end ==> (end - 1) / BLOCK_SIZE > at / BLOCK_SIZE
  {}

  lemma StopIsExact(at: nat, end: nat)
    requires at <= end < at + HALF
    ensures var stop := Add(BlockBase(Wrap(at)), BLOCK_SIZE);
            Wrap(StopAt(at, end)) == if CircularLess(Wrap(end), stop) then Wrap(end) else stop
  {
    BlockBaseIsFloor(at);
    WrapAgain(BLOCK_SIZE, FloorBase(at));
    CircularLessIsLess(end, FloorBase(at) + BLOCK_SIZE);
  }

  /** The fill loop of enqueue_bulk, one block at a time on wrapped indices.  It writes the elements to
      consecutive indices, moves to the next block exactly at each block boundary, and when it has
      filled the last block, which it knows only from the allocation, it is exactly at the new tail. */
  method Fill(start: nat, count: nat, blocks: nat) returns (writes: seq<(nat, Index)>)
    requires 0 < count < HALF - BLOCK_SIZE
    requires blocks == BlockStarts(start, count) + (if start % BLOCK_SIZE == 0 then 0 else 1)
    ensures |writes| == count && forall k | 0 <= k < count :: writes[k] == Target(start, k)
  {
    hide CircularLess, BlockBase, Add, BlockStarts, Wrap, StopAt, FloorBase, Target;
    var newTail: Index := Wrap(start + count);
    var current: Index := Wrap(start);
    ghost var at := start;
    var block := 0;
    writes := [];
    LastBlock(start, count);
    while true
      invariant start <= at < start + count && current == Wrap(at)
      invariant |writes| == at - start && forall k | 0 <= k < |writes| :: writes[k] == Target(start, k)
      invariant block == at / BLOCK_SIZE - start / BLOCK_SIZE < blocks
      invariant block > 0 ==> at % BLOCK_SIZE == 0
      decreases blocks - block
    {
      var stop: Index := Add(BlockBase(current), BLOCK_SIZE);
      StopIsExact(at, start + count);
      StopAdvances(at, start + count);
      if CircularLess(newTail, stop) {
        stop := newTail;
      }
      var filled := FillBlock(block, current, stop, start, at, StopAt(at, start + count));
      writes := writes + filled;
      at := StopAt(at, start + count);
      current := stop;
      if block + 1 == blocks {
        assert current == newTail;
        break;
      }
      block := block + 1;
    }
  }
}
