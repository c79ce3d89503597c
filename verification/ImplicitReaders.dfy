/** What the consumers of an implicit producer know while its index changes: the count of each block's elements,
    what each consumer relies on, and who has which block. */
module ImplicitReaders {
  import opened Claims
  import opened Counting
  import opened Options
  import opened Wraparound
  import opened IndexRing
  import opened ImplicitLookup

  type Block = ImplicitLookup.Block

  // ---- Counting ----------------------------------------------------------------------

  /** The indices a consumer has claimed and not counted as read. */
  function From(c: Consumer): nat {
    match c
    case Idle => 0
    case Read(_, _, _, _, from, _) => from
    case Count(_, _, _, _, from, _) => from
    case _ => c.next
  }

  function Stop(c: Consumer): nat { if c == Idle then 0 else c.stop }

  function PendingWeight(q: nat): Consumer -> nat { (c: Consumer) => Overlap(From(c), Stop(c), q) }
  function ClearWeight(q: nat): Consumer -> nat { (c: Consumer) => if c.Clear? && c.q == q then 1 else 0 }

  /** Of a block in the index, every element is counted as read, claimed, or still to be claimed, and the
      one consumer that counted the last is taking it out; of a block that is gone nothing is left. */
  ghost predicate CountLaw(s: State, q: nat) {
    var pending, clearing := Sum(s.consumers, PendingWeight(q)), Sum(s.consumers, ClearWeight(q));
    if q in s.blocks then
      && q in s.done && s.done[q] + pending + Overlap(s.head, (q + 1) * BLOCK_SIZE, q) == BLOCK_SIZE
      && clearing == (if s.done[q] == BLOCK_SIZE then 1 else 0)
    else
      pending == 0 && clearing == 0 && (q < Published(s.tail) ==> (q + 1) * BLOCK_SIZE <= s.head)
  }

  ghost predicate CountsLaw(s: State) { forall q: nat :: CountLaw(s, q) }

  lemma SumsMove(s: State, t: nat, c: Consumer, q: nat)
    requires t < |s.consumers|
    ensures Sum(s.consumers[t := c], PendingWeight(q)) == Sum(s.consumers, PendingWeight(q)) - PendingWeight(q)(s.consumers[t]) + PendingWeight(q)(c)
    ensures Sum(s.consumers[t := c], ClearWeight(q)) == Sum(s.consumers, ClearWeight(q)) - ClearWeight(q)(s.consumers[t]) + ClearWeight(q)(c)
  {
    SumUpdate(s.consumers, t, c, PendingWeight(q));
    SumUpdate(s.consumers, t, c, ClearWeight(q));
    SumMember(s.consumers, t, PendingWeight(q));
    SumMember(s.consumers, t, ClearWeight(q));
  }

  lemma ClaimKeepsCounts(s: State, t: nat, k: nat)
    requires IndexInv(s) && CountsLaw(s) && Enabled(s, Claim(t, k)) && k > 0
    ensures CountsLaw(Apply(s, Claim(t, k)))
  {
    hide HeadersLaw, CurrentLaw, NumbersLaw, TestLaw, HasIndex, Reads;
    var s' := Apply(s, Claim(t, k));
    forall q: nat ensures CountLaw(s', q) {
      assert CountLaw(s, q);
      SumsMove(s, t, LoadHeader(s.head, s.head + k), q);
      ClaimMoves(s.head, k, q);
    }
  }

  lemma StoreKeepsCounts(s: State, b: Block)
    requires IndexInv(s) && CountsLaw(s) && Enabled(s, Store(b))
    ensures CountsLaw(Apply(s, Store(b)))
  {
    var s' := Apply(s, Store(b));
    forall q: nat ensures CountLaw(s', q) {
      assert CountLaw(s, q);
    }
  }

  lemma UndoNullKeepsCounts(s: State)
    requires IndexInv(s) && CountsLaw(s) && Enabled(s, UndoNull)
    ensures CountsLaw(Apply(s, UndoNull))
  {
    var s' := Apply(s, UndoNull);
    forall q: nat ensures CountLaw(s', q) {
      assert CountLaw(s, q);
    }
  }

  lemma QuietKeepsCounts(s: State, a: Action)
    requires IndexInv(s) && CountsLaw(s) && Enabled(s, a)
    requires a.Test? || a.GiveUp? || a.Key? || a.MoveTail? || a.Rewind? || a.Null? || a.Grow? || a.Publish? || a.StartUndo? || a.UndoRewind? || a.EndUndo?
    ensures CountsLaw(Apply(s, a))
  {
    var s' := Apply(s, a);
    forall q: nat ensures CountLaw(s', q) {
      assert CountLaw(s, q);
    }
  }

  /** A consumer step that neither claims, counts nor clears. */
  lemma LookKeepsCounts(s: State, t: nat)
    requires CountsLaw(s) && Enabled(s, Consume(t)) && !s.consumers[t].Count? && !s.consumers[t].Clear?
    ensures CountsLaw(Apply(s, Consume(t)))
  {
    LookKeepsRange(s, t);
    var s' := Step(s, t);
    hide Overlap, Step;
    forall q: nat ensures CountLaw(s', q) {
      assert CountLaw(s, q);
      SumsMove(s, t, s'.consumers[t], q);
      EmptyOverlap(q, From(s.consumers[t]));
      EmptyOverlap(q, 0);
    }
  }

  /** Looking and releasing leave what is claimed and not counted as it is. */
  lemma LookKeepsRange(s: State, t: nat)
    requires Enabled(s, Consume(t)) && !s.consumers[t].Count? && !s.consumers[t].Clear?
    ensures var s', c := Step(s, t), s.consumers[t]; var c' := s'.consumers[t];
            && |s'.consumers| == |s.consumers| && s'.consumers == s.consumers[t := c'] && !c'.Clear?
            && s'.blocks == s.blocks && s'.done == s.done && s'.head == s.head && s'.tail == s.tail
            && ((From(c') == From(c) && Stop(c') == Stop(c)) || (c' == Idle && From(c) == Stop(c)))
  {
    hide LookupSlot, PartEnd, BlockBase;
    var c := s.consumers[t];
    if c.Release? {
      assert Step(s, t) == s.(free := s.free + {c.block}, consumers := s.consumers[t := OnTo(c.next, c.stop, c.h, c.slot, |s.headers[c.h].index|)]);
    } else {
      LookShape(s, t);
      LookRange(s, t);
      hide Step;
    }
  }

  lemma LookRange(s: State, t: nat)
    requires Enabled(s, Consume(t)) && !s.consumers[t].Count? && !s.consumers[t].Clear? && !s.consumers[t].Release?
    ensures From(Step(s, t).consumers[t]) == From(s.consumers[t])
    ensures Stop(Step(s, t).consumers[t]) == Stop(s.consumers[t])
  {
    hide LookupSlot, PartEnd, BlockBase;
  }

  lemma CountKeepsCounts(s: State, t: nat)
    requires CountsLaw(s) && Enabled(s, Consume(t)) && s.consumers[t].Count?
    requires var Count(next, stop, _, _, from, _) := s.consumers[t]; from < stop && next == PartEnd(from, stop) && from / BLOCK_SIZE in s.blocks
    ensures CountsLaw(Apply(s, Consume(t)))
  {
    var Count(next, stop, h, slot, from, block) := s.consumers[t];
    var s' := Apply(s, Consume(t));
    forall q: nat ensures CountLaw(s', q) {
      assert CountLaw(s, q);
      SumsMove(s, t, s'.consumers[t], q);
      SumMember(s.consumers, t, PendingWeight(q));
      PartIs(from, stop, q);
      OverlapSplits(from, next, stop, q);
    }
  }

  lemma ClearKeepsCounts(s: State, t: nat)
    requires CountsLaw(s) && Enabled(s, Consume(t)) && s.consumers[t].Clear? && s.consumers[t].q in s.blocks
    ensures CountsLaw(Apply(s, Consume(t)))
  {
    var s', q0 := Apply(s, Consume(t)), s.consumers[t].q;
    forall q: nat ensures CountLaw(s', q) {
      assert CountLaw(s, q);
      SumsMove(s, t, s'.consumers[t], q);
      SumMember(s.consumers, t, ClearWeight(q));
    }
  }

  // ---- What each consumer knows --------------------------------------------------------

  ghost predicate AtSlot(s: State, h: nat, slot: nat, q: int) {
    h < |s.headers| && |s.headers[h].index| > 0 && slot == Slot(s.headers[h].bias, q, |s.headers[h].index|)
  }

  /** The header has every block that the consumer has claimed elements of. */
  ghost predicate Covers(s: State, h: nat, next: nat, stop: nat) {
    next < stop <= s.head && h < |s.headers| && (stop - 1) / BLOCK_SIZE < s.headers[h].upTo
  }

  ghost predicate Holding(s: State, q: nat, block: Block) {
    q in s.blocks && s.blocks[q] == block && q < Published(s.tail)
  }

  ghost predicate LocalLaw(s: State, c: Consumer) {
    match c
    case Idle => true
    case LoadHeader(next, stop) => next < stop <= s.head
    case LoadTail(next, stop, h) => Covers(s, h, next, stop) && (stop - 1) / BLOCK_SIZE <= s.headers[h].last
    case LoadKey(next, stop, h, slot, p) => Covers(s, h, next, stop) && AtSlot(s, h, slot, p) && next / BLOCK_SIZE <= p < s.headers[h].upTo
    case LoadValue(next, stop, h, slot) => Covers(s, h, next, stop) && AtSlot(s, h, slot, next / BLOCK_SIZE)
    case Read(next, stop, h, slot, from, block) =>
      Covers(s, h, from, stop) && AtSlot(s, h, slot, from / BLOCK_SIZE) && from <= next < PartEnd(from, stop) && Holding(s, from / BLOCK_SIZE, block)
    case Count(next, stop, h, slot, from, block) =>
      Covers(s, h, from, stop) && AtSlot(s, h, slot, from / BLOCK_SIZE) && next == PartEnd(from, stop) && Holding(s, from / BLOCK_SIZE, block)
    case Clear(next, stop, h, slot, q, block) =>
      && AtSlot(s, h, slot, q) && q < s.headers[h].upTo && Holding(s, q, block) && next <= stop
      && (next < stop ==> Covers(s, h, next, stop) && next / BLOCK_SIZE == q + 1)
    case Release(next, stop, h, slot, block) =>
      && h < |s.headers| && |s.headers[h].index| > 0 && next <= stop
      && (next < stop ==> Covers(s, h, next, stop) && AtSlot(s, h, slot, next / BLOCK_SIZE - 1))
  }

  ghost predicate LocalsLaw(s: State) { forall t | 0 <= t < |s.consumers| :: LocalLaw(s, s.consumers[t]) }

  /** A block of which a consumer has an uncounted element is in the index. */
  lemma PendingIsLive(s: State, t: nat, i: nat)
    requires CountsLaw(s) && t < |s.consumers| && From(s.consumers[t]) <= i < Stop(s.consumers[t])
    ensures i / BLOCK_SIZE in s.blocks
  {
    var q := i / BLOCK_SIZE;
    assert CountLaw(s, q);
    SumMember(s.consumers, t, PendingWeight(q));
    InsideOverlaps(From(s.consumers[t]), Stop(s.consumers[t]), i);
  }

  /** The key that a consumer loads is that of the block number the tail slot was keyed for, and the slot it
      computes is the slot of its own block: through a stale header, and while the producer is inserting,
      growing the index or taking insertions back. */
  lemma LookupIsRight(s: State, t: nat)
    requires IndexInv(s) && CountsLaw(s) && t < |s.consumers| && s.consumers[t].LoadKey? && LocalLaw(s, s.consumers[t])
    ensures var LoadKey(next, stop, h, slot, p) := s.consumers[t]; var x := s.headers[h];
            && slot < |x.index| && x.index[slot] < |s.entries|
            && s.entries[x.index[slot]].key == Wrap(p * BLOCK_SIZE) != INVALID_BLOCK_BASE
            && LookupSlot(slot, s.entries[x.index[slot]].key, BlockBase(Wrap(next)), |x.index|) == Slot(x.bias, next / BLOCK_SIZE, |x.index|)
  {
    var LoadKey(next, stop, h, slot, p) := s.consumers[t];
    var x, q := s.headers[h], next / BLOCK_SIZE;
    PendingIsLive(s, t, next);
    assert HeaderLaw(x, |s.entries|, s.home, s.low) && x.upTo <= Current(s).upTo;
    assert MapsTo(x, s.home, p) && NumberLaw(s, p);
    KeyIsValid(p);
    BlockBaseIsFloor(next);
    Within(q, p, |x.index|);
    LookupIsExact(x.bias, q, p, |x.index|);
  }

  /** And there it finds the entry with the key and the block that the source asserts. */
  lemma ValueIsRight(s: State, t: nat)
    requires IndexInv(s) && CountsLaw(s) && t < |s.consumers| && s.consumers[t].LoadValue?
    requires LocalLaw(s, s.consumers[t])
    ensures var LoadValue(next, stop, h, slot) := s.consumers[t]; var x, q := s.headers[h], next / BLOCK_SIZE;
            && q in s.blocks && slot < |x.index| && x.index[slot] < |s.entries|
            && s.entries[x.index[slot]] == Entry(Wrap(q * BLOCK_SIZE), Some(s.blocks[q]))
  {
    var LoadValue(next, stop, h, slot) := s.consumers[t];
    PendingIsLive(s, t, next);
    BlocksInOrder(next, stop - 1);
    StaleFinds(s, h, next / BLOCK_SIZE);
  }

  /** Every consumer's next operation is possible. */
  lemma ReadsAreSafe(s: State, t: nat)
    requires IndexInv(s) && CountsLaw(s) && t < |s.consumers| && LocalLaw(s, s.consumers[t])
    ensures Reads(s, s.consumers[t])
  {
    var c := s.consumers[t];
    if c.LoadKey? {
      LookupIsRight(s, t);
    } else if c.LoadValue? {
      ValueIsRight(s, t);
    } else if c.Count? {
      assert CountLaw(s, c.from / BLOCK_SIZE);
      PartIs(c.from, c.stop, 0);
    } else if c.Clear? {
      StaleFinds(s, c.h, c.q);
    }
  }

  // ---- What each consumer knows stays so -----------------------------------------------

  /** Headers keep their slots, and lose none of the block numbers that consumers may need. */
  ghost predicate HeaderKept(x: Header, x': Header, published: nat) {
    && x'.index == x.index && x'.bias == x.bias && x'.upTo >= x.upTo
    && (x'.last == x.last || x'.last >= published - 1)
  }

  ghost predicate Kept(s: State, s': State) {
    && |s.headers| <= |s'.headers| && (forall h | 0 <= h < |s.headers| :: HeaderKept(s.headers[h], s'.headers[h], Published(s.tail)))
    && s.head <= s.tail && s.head <= s'.head && s.tail <= s'.tail
  }

  /** The block number that a consumer is at work on. */
  function Held(c: Consumer): Option<nat> {
    match c
    case Read(_, _, _, _, from, _) => Some(from / BLOCK_SIZE)
    case Count(_, _, _, _, from, _) => Some(from / BLOCK_SIZE)
    case Clear(_, _, _, _, q, _) => Some(q)
    case _ => None
  }

  ghost predicate StillHeld(s: State, s': State, c: Consumer) {
    Held(c).Some? && Held(c).value in s.blocks ==> Held(c).value in s'.blocks && s'.blocks[Held(c).value] == s.blocks[Held(c).value]
  }

  lemma LocalStays(s: State, s': State, c: Consumer)
    requires LocalLaw(s, c) && Kept(s, s') && StillHeld(s, s', c)
    ensures LocalLaw(s', c)
  {
    hide PartEnd;
    PublishedGrows(s.tail, s'.tail);
    if c.LoadTail? {
      assert HeaderKept(s.headers[c.h], s'.headers[c.h], Published(s.tail));
      PublishedBlock(s.tail, c.stop - 1);
    } else if c != Idle && !c.LoadHeader? {
      assert HeaderKept(s.headers[c.h], s'.headers[c.h], Published(s.tail));
    }
  }

  lemma HeaderStep(s: State, t: nat)
    requires IndexInv(s) && CountsLaw(s) && t < |s.consumers| && LocalLaw(s, s.consumers[t]) && Reads(s, s.consumers[t])
    requires s.consumers[t].LoadHeader? || s.consumers[t].LoadTail?
    ensures LocalLaw(Step(s, t), Step(s, t).consumers[t])
  {
    CurrentFacts(s);
    var c := s.consumers[t];
    if c.LoadHeader? {
      PublishedBlock(s.tail, c.stop - 1);
    } else {
      BlocksInOrder(c.next, c.stop - 1);
      assert HeaderLaw(s.headers[c.h], |s.entries|, s.home, s.low);
    }
  }

  lemma LookStep(s: State, t: nat)
    requires IndexInv(s) && CountsLaw(s) && t < |s.consumers| && LocalLaw(s, s.consumers[t]) && Reads(s, s.consumers[t])
    requires s.consumers[t].LoadKey? || s.consumers[t].LoadValue?
    ensures LocalLaw(Step(s, t), Step(s, t).consumers[t])
  {
    var c := s.consumers[t];
    if c.LoadKey? {
      LookupIsRight(s, t);
    } else {
      ValueIsRight(s, t);
      PartIs(c.next, c.stop, 0);
      PublishedBlock(s.tail, c.next);
    }
  }

  lemma NextSlotIs(x: Header, slot: nat, q: int)
    requires |x.index| > 0 && slot == Slot(x.bias, q, |x.index|)
    ensures (slot + 1) % |x.index| == Slot(x.bias, q + 1, |x.index|)
  {
    SlotShift(x.bias, q, 1, |x.index|);
  }

  lemma ReadStep(s: State, t: nat)
    requires t < |s.consumers| && LocalLaw(s, s.consumers[t]) && Reads(s, s.consumers[t]) && |s.headers| > 0
    requires s.consumers[t].Read? || s.consumers[t].Count?
    ensures LocalLaw(Step(s, t), Step(s, t).consumers[t])
  {
    var c := s.consumers[t];
    PartIs(c.from, c.stop, 0);
    hide PartEnd;
    NextSlotIs(s.headers[c.h], c.slot, c.from / BLOCK_SIZE);
  }

  lemma EndStep(s: State, t: nat)
    requires t < |s.consumers| && LocalLaw(s, s.consumers[t]) && Reads(s, s.consumers[t]) && |s.headers| > 0
    requires s.consumers[t].Clear? || s.consumers[t].Release?
    ensures LocalLaw(Step(s, t), Step(s, t).consumers[t])
  {
    var c := s.consumers[t];
    if c.Release? && c.next < c.stop {
      NextSlotIs(s.headers[c.h], c.slot, c.next / BLOCK_SIZE - 1);
    }
  }

  lemma OwnStep(s: State, t: nat)
    requires IndexInv(s) && CountsLaw(s) && LocalsLaw(s) && Enabled(s, Consume(t))
    ensures LocalLaw(Step(s, t), Step(s, t).consumers[t])
  {
    var c := s.consumers[t];
    assert LocalLaw(s, c);
    if c.LoadHeader? || c.LoadTail? {
      HeaderStep(s, t);
    } else if c.LoadKey? || c.LoadValue? {
      LookStep(s, t);
    } else if c.Read? || c.Count? {
      ReadStep(s, t);
    } else if c.Clear? || c.Release? {
      EndStep(s, t);
    }
  }

  /** A block that one consumer takes out of the index is not being worked on by another. */
  lemma ClearsAlone(s: State, t: nat, u: nat)
    requires CountsLaw(s) && LocalsLaw(s) && t < |s.consumers| && u < |s.consumers| && u != t && s.consumers[t].Clear?
    ensures Held(s.consumers[u]) != Some(s.consumers[t].q)
  {
    var c, d, q := s.consumers[t], s.consumers[u], s.consumers[t].q;
    assert LocalLaw(s, c) && LocalLaw(s, d) && CountLaw(s, q);
    SumMember(s.consumers, t, ClearWeight(q));
    if Held(d) == Some(q) {
      if d.Clear? {
        SumPair(s.consumers, if t < u then t else u, if t < u then u else t, ClearWeight(q));
      } else {
        PartIs(d.from, d.stop, 0);
        InsideOverlaps(d.from, d.stop, d.from);
        SumMember(s.consumers, u, PendingWeight(q));
      }
    }
  }

  /** A consumer's step moves that consumer, and takes at most the block that it clears out of the index. */
  lemma StepMovesOne(s: State, t: nat)
    requires IndexInv(s) && CountsLaw(s) && Enabled(s, Consume(t))
    ensures var s' := Step(s, t); Kept(s, s') && |s'.consumers| == |s.consumers|
    ensures forall u | 0 <= u < |s.consumers| && u != t :: Step(s, t).consumers[u] == s.consumers[u]
    ensures Step(s, t).blocks == if s.consumers[t].Clear? then s.blocks - {s.consumers[t].q} else s.blocks
  {}

  lemma ConsumeKeepsLocals(s: State, t: nat)
    requires IndexInv(s) && CountsLaw(s) && LocalsLaw(s) && Enabled(s, Consume(t))
    ensures LocalsLaw(Apply(s, Consume(t)))
  {
    hide Step, Reads, IndexInv, CountsLaw, LocalLaw, Kept, PartEnd;
    var s' := Step(s, t);
    OwnStep(s, t);
    StepMovesOne(s, t);
    forall u | 0 <= u < |s.consumers| && u != t ensures LocalLaw(s', s'.consumers[u]) {
      if s.consumers[t].Clear? {
        ClearsAlone(s, t, u);
      }
      LocalStays(s, s', s.consumers[u]);
    }
  }

  /** Producer steps leave headers and held blocks as consumers need them. */
  lemma ProducerKeeps(s: State, a: Action)
    requires IndexInv(s) && Enabled(s, a) && !a.Consume? && !a.Claim?
    ensures Kept(s, Apply(s, a)) && Apply(s, a).consumers == s.consumers
    ensures forall q | q in s.blocks && q < Published(s.tail) :: q in Apply(s, a).blocks && Apply(s, a).blocks[q] == s.blocks[q]
  {}

  lemma ProduceKeepsLocals(s: State, a: Action)
    requires IndexInv(s) && LocalsLaw(s) && Enabled(s, a) && !a.Consume? && !a.Claim?
    ensures LocalsLaw(Apply(s, a))
  {
    var s' := Apply(s, a);
    ProducerKeeps(s, a);
    forall u | 0 <= u < |s'.consumers| ensures LocalLaw(s', s'.consumers[u]) {
      assert LocalLaw(s, s.consumers[u]);
      LocalStays(s, s', s.consumers[u]);
    }
  }

  lemma ClaimKeepsLocals(s: State, t: nat, k: nat)
    requires IndexInv(s) && LocalsLaw(s) && Enabled(s, Claim(t, k)) && k > 0
    ensures LocalsLaw(Apply(s, Claim(t, k)))
  {
    var s' := Apply(s, Claim(t, k));
    forall u | 0 <= u < |s'.consumers| ensures LocalLaw(s', s'.consumers[u]) {
      if u != t {
        assert LocalLaw(s, s.consumers[u]);
        LocalStays(s, s', s.consumers[u]);
      }
    }
  }

  // ---- Who has which block -------------------------------------------------------------

  /** The index, the free list, the blocks being taken back and the hands of releasing consumers have no
      block in common. */
  ghost predicate OwnerLaw(s: State) {
    && (forall q, r | q in s.blocks && r in s.blocks && q != r :: s.blocks[q] != s.blocks[r])
    && (forall q | q in s.blocks :: s.blocks[q] !in s.free && s.blocks[q] !in s.spare)
    && s.free !! s.spare
    && (forall t | 0 <= t < |s.consumers| :: HandLaw(s, s.consumers[t]))
    && (forall t, u | 0 <= t < u < |s.consumers| && s.consumers[t].Release? && s.consumers[u].Release? :: s.consumers[t].block != s.consumers[u].block)
  }

  ghost predicate HandLaw(s: State, c: Consumer) {
    c.Release? ==> c.block !in s.free && c.block !in s.spare && c.block !in s.blocks.Values
  }

  function Hands(s: State): set<Block> { set t | 0 <= t < |s.consumers| && s.consumers[t].Release? :: s.consumers[t].block }

  function Everything(s: State): set<Block> { s.free + s.spare + s.blocks.Values + Hands(s) }

  /** A step that only looks changes only what the consumer knows. */
  lemma LookShape(s: State, t: nat)
    requires Enabled(s, Consume(t)) && !s.consumers[t].Count? && !s.consumers[t].Clear? && !s.consumers[t].Release?
    ensures var c := Step(s, t).consumers[t]; Step(s, t) == s.(consumers := s.consumers[t := c]) && !c.Release? && !c.Clear?
  {
    hide LookupSlot, BlockBase, PartEnd;
    assert s.consumers[t := s.consumers[t]] == s.consumers;
  }

  lemma CountShape(s: State, t: nat)
    requires Enabled(s, Consume(t)) && s.consumers[t].Count?
    ensures var s' := Step(s, t); s' == s.(done := s'.done, consumers := s.consumers[t := s'.consumers[t]]) && !s'.consumers[t].Release?
  {}

  lemma ConsumeKeepsOwners(s: State, t: nat)
    requires OwnerLaw(s) && LocalsLaw(s) && Enabled(s, Consume(t))
    ensures OwnerLaw(Apply(s, Consume(t)))
  {
    var s', c := Step(s, t), s.consumers[t];
    assert LocalLaw(s, c) && HandLaw(s, c);
    if c.Count? {
      CountShape(s, t);
      hide Step;
      HandsStay(s, s', t);
    } else if !c.Clear? && !c.Release? {
      LookShape(s, t);
      hide Step;
      HandsStay(s, s', t);
    } else {
      assert forall q | q in s'.blocks :: q in s.blocks && s'.blocks[q] == s.blocks[q];
      forall u | 0 <= u < |s'.consumers| ensures HandLaw(s', s'.consumers[u]) {
        assert HandLaw(s, s.consumers[u]);
      }
    }
  }

  lemma HandsStay(s: State, s': State, t: nat)
    requires OwnerLaw(s) && t < |s.consumers| == |s'.consumers| && s'.consumers == s.consumers[t := s'.consumers[t]]
    requires !s'.consumers[t].Release? && !s.consumers[t].Release?
    requires s'.blocks == s.blocks && s'.free == s.free && s'.spare == s.spare
    ensures OwnerLaw(s') && Everything(s') == Everything(s)
  {
    forall u | 0 <= u < |s'.consumers| ensures HandLaw(s', s'.consumers[u]) {
      assert HandLaw(s, s.consumers[u]);
    }
    forall b ensures b in Hands(s') <==> b in Hands(s) {
      if b in Hands(s) {
        var u :| 0 <= u < |s.consumers| && s.consumers[u].Release? && s.consumers[u].block == b;
        assert s'.consumers[u] == s.consumers[u];
      }
      if b in Hands(s') {
        var u :| 0 <= u < |s'.consumers| && s'.consumers[u].Release? && s'.consumers[u].block == b;
        assert s.consumers[u] == s'.consumers[u];
      }
    }
  }

  lemma ProduceKeepsOwners(s: State, a: Action)
    requires OwnerLaw(s) && Enabled(s, a) && !a.Consume?
    ensures OwnerLaw(Apply(s, a))
  {
    var s' := Apply(s, a);
    forall u | 0 <= u < |s'.consumers| ensures HandLaw(s', s'.consumers[u]) {
      assert HandLaw(s, s.consumers[u]);
    }
  }

  lemma ClearKeepsEverything(s: State, t: nat)
    requires OwnerLaw(s) && LocalsLaw(s) && Enabled(s, Consume(t)) && s.consumers[t].Clear?
    ensures Everything(Apply(s, Consume(t))) == Everything(s)
  {
    var s', c := Step(s, t), s.consumers[t];
    assert LocalLaw(s, c);
    forall b ensures b in Hands(s') <==> b in Hands(s) + {c.block} {
      HandMoves(s, s', t, b);
    }
    forall b ensures b in s.blocks.Values <==> b in s'.blocks.Values + {c.block} {
      if b in s.blocks.Values && b != c.block {
        var q :| q in s.blocks && s.blocks[q] == b;
        assert s'.blocks[q] == b;
      }
    }
  }

  lemma HandMoves(s: State, s': State, t: nat, b: Block)
    requires t < |s.consumers| == |s'.consumers| && s'.consumers == s.consumers[t := s'.consumers[t]]
    ensures b in Hands(s') ==> b in Hands(s) || (s'.consumers[t].Release? && s'.consumers[t].block == b)
    ensures b in Hands(s) ==> b in Hands(s') || (s.consumers[t].Release? && s.consumers[t].block == b)
    ensures s'.consumers[t].Release? ==> s'.consumers[t].block in Hands(s')
    ensures s.consumers[t].Release? ==> s.consumers[t].block in Hands(s)
  {
    if b in Hands(s) {
      var u :| 0 <= u < |s.consumers| && s.consumers[u].Release? && s.consumers[u].block == b;
      assert u != t ==> s'.consumers[u] == s.consumers[u];
    }
    if b in Hands(s') {
      var u :| 0 <= u < |s'.consumers| && s'.consumers[u].Release? && s'.consumers[u].block == b;
      assert u != t ==> s.consumers[u] == s'.consumers[u];
    }
  }

  lemma ReleaseKeepsEverything(s: State, t: nat)
    requires OwnerLaw(s) && Enabled(s, Consume(t)) && s.consumers[t].Release?
    ensures Everything(Apply(s, Consume(t))) == Everything(s)
  {
    var s', c := Step(s, t), s.consumers[t];
    forall b ensures b in Everything(s') <==> b in Everything(s) {
      HandMoves(s, s', t, b);
    }
  }

  lemma ConsumeKeepsEverything(s: State, t: nat)
    requires OwnerLaw(s) && LocalsLaw(s) && Enabled(s, Consume(t))
    ensures Everything(Apply(s, Consume(t))) == Everything(s)
  {
    var s', c := Step(s, t), s.consumers[t];
    if c.Clear? {
      ClearKeepsEverything(s, t);
    } else if c.Release? {
      ReleaseKeepsEverything(s, t);
    } else if c.Count? {
      CountShape(s, t);
      hide Step;
      HandsStay(s, s', t);
    } else {
      LookShape(s, t);
      hide Step;
      HandsStay(s, s', t);
    }
  }

  lemma ProduceKeepsEverything(s: State, a: Action)
    requires OwnerLaw(s) && IndexInv(s) && Enabled(s, a) && !a.Consume?
    ensures Everything(Apply(s, a)) == Everything(s)
  {
    hide HeadersLaw, CurrentLaw, NumbersLaw, TestLaw, FoundEntry, NextEntry, HasIndex, IsFree, Wrap;
    var s' := Apply(s, a);
    forall b ensures b in Everything(s') <==> b in Everything(s) {
      if b in Hands(s) {
        var u :| 0 <= u < |s.consumers| && s.consumers[u].Release? && s.consumers[u].block == b;
        assert s'.consumers[u] == s.consumers[u];
      }
      if b in Hands(s') {
        var u :| 0 <= u < |s'.consumers| && s'.consumers[u].Release? && s'.consumers[u].block == b;
        assert s.consumers[u] == s'.consumers[u];
      }
      if b in s.blocks.Values {
        var q :| q in s.blocks && s.blocks[q] == b;
        assert q in s'.blocks ==> s'.blocks[q] == b;
      }
      if a.Store? {
        assert s'.blocks[s.count] == a.block;
      }
    }
  }
}
