/** Claimed ranges of indices, and the blocks that they lie in. */
module Claims {
  import opened Wraparound

  function Published(tail: nat): nat { (tail + BLOCK_SIZE - 1) / BLOCK_SIZE }

  /** Where the share of one block ends. */
  function PartEnd(from: nat, stop: nat): nat {
    var end := (from / BLOCK_SIZE + 1) * BLOCK_SIZE;
    if stop < end then stop else end
  }

  lemma Within(q: int, m: int, n: int)
    requires -n < q - m < n && n * BLOCK_SIZE <= HALF
    ensures -HALF <= (q - m) * BLOCK_SIZE < HALF
  {}

  /** How many of [lo, hi) are in block q. */
  function Overlap(lo: nat, hi: nat, q: nat): nat {
    var a := if lo > q * BLOCK_SIZE then lo else q * BLOCK_SIZE;
    var b := if hi < (q + 1) * BLOCK_SIZE then hi else (q + 1) * BLOCK_SIZE;
    if a < b then b - a else 0
  }

  /** Splitting a range. */
  lemma OverlapSplits(lo: nat, mid: nat, hi: nat, q: nat)
    requires lo <= mid <= hi
    ensures Overlap(lo, hi, q) == Overlap(lo, mid, q) + Overlap(mid, hi, q)
    ensures Overlap(lo, hi, q) <= BLOCK_SIZE
  {}

  /** A claim moves elements from unclaimed to claimed. */
  lemma ClaimMoves(head: nat, k: nat, q: nat)
    ensures Overlap(head, (q + 1) * BLOCK_SIZE, q) == Overlap(head, head + k, q) + Overlap(head + k, (q + 1) * BLOCK_SIZE, q)
    ensures (q + 1) * BLOCK_SIZE <= head ==> Overlap(head, head + k, q) == 0
    ensures head + k <= q * BLOCK_SIZE ==> Overlap(head, head + k, q) == 0
  {}

  /** The share of one block. */
  lemma PartIs(from: nat, stop: nat, q: nat)
    requires from < stop
    ensures from < PartEnd(from, stop) <= stop
    ensures Overlap(from, PartEnd(from, stop), q) == (if q == from / BLOCK_SIZE then PartEnd(from, stop) - from else 0)
    ensures PartEnd(from, stop) < stop ==> PartEnd(from, stop) / BLOCK_SIZE == from / BLOCK_SIZE + 1
    ensures (PartEnd(from, stop) - 1) / BLOCK_SIZE == from / BLOCK_SIZE
  {}

  lemma EmptyOverlap(q: nat, lo: nat)
    ensures Overlap(lo, lo, q) == 0
  {}

  lemma InsideOverlaps(lo: nat, hi: nat, i: nat)
    requires lo <= i < hi
    ensures Overlap(lo, hi, i / BLOCK_SIZE) > 0
  {}

  /** Elements below the tail are in published blocks. */
  lemma PublishedBlock(tail: nat, i: nat)
    requires i < tail
    ensures i / BLOCK_SIZE < Published(tail)
  {}

  lemma BlocksInOrder(i: nat, j: nat)
    requires i <= j
    ensures i / BLOCK_SIZE <= j / BLOCK_SIZE
  {}

  lemma PublishedGrows(a: nat, b: nat)
    requires a <= b
    ensures Published(a) <= Published(b)
  {}

  lemma SameBlockNumber(from: nat, next: nat, stop: nat)
    requires from <= next < PartEnd(from, stop)
    ensures next / BLOCK_SIZE == from / BLOCK_SIZE && next < stop
  {}
}
