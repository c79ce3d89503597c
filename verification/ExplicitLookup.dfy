/** Consumers finding blocks through the index of an explicit producer while single-element enqueues reuse
    emptied blocks, add new ones and double the index: one step per atomic operation, any number of
    consumers.

    The producer's blocks form a circle.  The block ahead of the newest is the oldest; it is used again once
    its flags have been found set, one after the other, or else a new block goes in between.  So block numbers
    [low, count) are in distinct blocks, and everything below `low` has been read.  The flag of an element is
    set once it has been read; the flags of a block run backwards. */
module ExplicitLookup {
  import opened Claims
  import opened Counting
  import opened Modular
  import opened Options
  import opened Wraparound
  import opened IndexRing
  import BlockStorage

  type Block = nat

  datatype Slots = Slots(base: Index, block: Block)

  /** The slots of a header are its own.  `bias` and `upTo` are history: block number j goes into slot
      (bias + j) mod size, and those below `upTo` have been exposed by `front`. */
  datatype Header = Header(entries: seq<Slots>, front: nat, bias: int, upTo: nat)

  /** `next` and `stop` are what is left of the indices claimed, `from` is where the current block's share of
      them starts; of those read, [from, left) are still to be flagged. */
  datatype Consumer =
    | Idle
    | LoadHeader(next: nat, stop: nat)
    | LoadFront(next: nat, stop: nat, h: nat)
    | LoadBase(next: nat, stop: nat, h: nat, slot: nat, p: nat)
    | LoadBlock(next: nat, stop: nat, h: nat, slot: nat)
    | Read(next: nat, stop: nat, h: nat, slot: nat, from: nat, block: Block)
    | SetEmpty(next: nat, stop: nat, h: nat, slot: nat, from: nat, block: Block, left: nat)

  /** What the producer has done about the next block. */
  datatype Producer =
    | Ready
    | Scan(seen: nat)        // so many flags of the oldest block have been found set
    | NotEmpty               // it has an unread element, or there is no block
    | Roomy                  // the leeway and the limit allow a new block
    | Reset(cleared: nat)    // the tail block is chosen; so many of its flags have been reset
    | Chosen                 // and now all of them
    | BaseWritten            // the next slot has its base
    | BlockWritten           // and its block; the front is still behind

  /** `blockOf` is history: the block that each block number was put in; `limit` is MAX_SUBQUEUE_SIZE. */
  datatype State = State(
    headers: seq<Header>, tail: nat, head: nat, count: nat, used: nat,
    flags: map<Block, seq<bool>>, producer: Producer, consumers: seq<Consumer>, blockOf: map<nat, Block>, low: nat,
    limit: Option<nat>)

  function Current(s: State): Header
    requires |s.headers| > 0
  {
    s.headers[|s.headers| - 1]
  }

  function SlotIn(x: Header, j: int): nat
    requires |x.entries| > 0
  {
    Slot(x.bias, j, |x.entries|)
  }

  // ---- Steps -------------------------------------------------------------------------

  predicate Reads(s: State, c: Consumer) {
    match c
    case LoadFront(_, _, h) => h < |s.headers| && s.headers[h].upTo > 0
    case LoadBase(_, _, h, slot, _) => h < |s.headers| && slot < |s.headers[h].entries|
    case LoadBlock(_, _, h, slot) => h < |s.headers| && slot < |s.headers[h].entries|
    case SetEmpty(next, _, h, _, from, block, left) =>
      from < left <= next && h < |s.headers| && |s.headers[h].entries| > 0 && block in s.flags && |s.flags[block]| == BLOCK_SIZE
    case _ => true
  }

  /** The flag that an element has in its block. */
  function FlagAt(i: nat): (k: nat)
    ensures k < BLOCK_SIZE
  {
    BLOCK_SIZE - 1 - i % BLOCK_SIZE
  }

  /** One operation of consumer t after it has claimed. */
  function Step(s: State, t: nat): State
    requires t < |s.consumers| && Reads(s, s.consumers[t]) && |s.headers| > 0
  {
    match s.consumers[t]
    case Idle => s
    case LoadHeader(next, stop) =>
      s.(consumers := s.consumers[t := LoadFront(next, stop, |s.headers| - 1)])
    case LoadFront(next, stop, h) =>
      s.(consumers := s.consumers[t := LoadBase(next, stop, h, s.headers[h].front, s.headers[h].upTo - 1)])
    case LoadBase(next, stop, h, slot, _) =>
      var x := s.headers[h];
      s.(consumers := s.consumers[t := LoadBlock(next, stop, h, LookupSlot(slot, x.entries[slot].base, BlockBase(Wrap(next)), |x.entries|))])
    case LoadBlock(next, stop, h, slot) =>
      s.(consumers := s.consumers[t := if next == stop then Idle else Read(next, stop, h, slot, next, s.headers[h].entries[slot].block)])
    case Read(next, stop, h, slot, from, block) =>
      s.(consumers := s.consumers[t := if next + 1 < PartEnd(from, stop) then Read(next + 1, stop, h, slot, from, block) else SetEmpty(next + 1, stop, h, slot, from, block, next + 1)])
    case SetEmpty(next, stop, h, slot, from, block, left) =>
      s.(flags := s.flags[block := s.flags[block][FlagAt(left - 1) := true]],
         consumers := s.consumers[t := if from < left - 1 then SetEmpty(next, stop, h, slot, from, block, left - 1) else if next == stop then Idle
                                       else LoadBlock(next, stop, h, (slot + 1) % |s.headers[h].entries|)])
  }

  datatype Action =
    | Consume(t: nat)
    | Claim(t: nat, k: nat)
    | StartScan | ScanFlag
    | CheckRoom
    | GiveUp
    | Insert(block: Block)
    | Grow(junk: seq<Slots>)
    | ResetFlag | WriteBase | WriteBlock | StoreFront
    | Publish(k: nat)

  predicate Enabled(s: State, a: Action) {
    && |s.headers| > 0 && |Current(s).entries| > 0
    && match a
       case Consume(t) => t < |s.consumers| && Reads(s, s.consumers[t])
       case Claim(t, k) => t < |s.consumers| && s.consumers[t] == Idle && s.head + k <= s.tail && s.tail > 0
       // a block is started only when the tail is at its first element
       case StartScan => s.producer == Ready && s.tail == s.count * BLOCK_SIZE
       case ScanFlag => s.producer.Scan? && s.low in s.blockOf && s.blockOf[s.low] in s.flags && s.producer.seen < |s.flags[s.blockOf[s.low]]|
       case CheckRoom => s.producer == NotEmpty
       case GiveUp => s.producer == Roomy
       case Insert(b) => s.producer == Roomy && s.used < |Current(s).entries| && b in s.flags
                         && forall q | q in s.blockOf && s.low <= q :: s.blockOf[q] != b
       case ResetFlag => s.producer.Reset? && s.count in s.blockOf && s.blockOf[s.count] in s.flags && s.producer.cleared < |s.flags[s.blockOf[s.count]]|
       case Grow(junk) => s.producer == Roomy && s.used == |Current(s).entries| && |junk| == s.used
                          && INDEX_RANGE % (2 * s.used) == 0 && 2 * s.used * BLOCK_SIZE <= HALF
       case WriteBase => s.producer == Chosen
       case WriteBlock => s.producer == BaseWritten && s.count in s.blockOf
       case StoreFront => s.producer == BlockWritten
       case Publish(k) => s.producer == Ready && s.tail + k <= s.count * BLOCK_SIZE
  }

  function WithCurrent(s: State, x: Header): State
    requires |s.headers| > 0
  {
    s.(headers := s.headers[|s.headers| - 1 := x])
  }

  /** The slots of the doubled index: the old ones in order from the oldest. */
  function Doubled(x: Header, first: nat, junk: seq<Slots>): seq<Slots>
    requires |x.entries| > 0
  {
    seq(|x.entries|, i requires 0 <= i < |x.entries| => x.entries[(first + i) % |x.entries|]) + junk
  }

  function Apply(s: State, a: Action): State
    requires Enabled(s, a)
  {
    var x := Current(s);
    var slot := SlotIn(x, s.count);
    match a
    case Consume(t) => Step(s, t)
    case Claim(t, k) => s.(head := s.head + k, consumers := s.consumers[t := LoadHeader(s.head, s.head + k)])
    case StartScan => s.(producer := if s.used > 0 then Scan(0) else NotEmpty)
    case ScanFlag =>
      if !s.flags[s.blockOf[s.low]][s.producer.seen] then s.(producer := NotEmpty)
      else if s.producer.seen + 1 < BLOCK_SIZE then s.(producer := Scan(s.producer.seen + 1))
      else s.(producer := Reset(0), blockOf := s.blockOf[s.count := s.blockOf[s.low]], low := s.low + 1)
    case CheckRoom => s.(producer := if BlockStorage.IsFull(Wrap(s.head), Wrap(s.tail), s.limit) then Ready else Roomy)
    case GiveUp => s.(producer := Ready)
    case Insert(b) => s.(producer := Reset(0), blockOf := s.blockOf[s.count := b], used := s.used + 1)
    case ResetFlag =>
      var b, k := s.blockOf[s.count], s.producer.cleared;
      s.(flags := s.flags[b := s.flags[b][k := false]], producer := if k + 1 < BLOCK_SIZE then Reset(k + 1) else Chosen)
    case Grow(junk) =>
      s.(headers := s.headers + [Header(Doubled(x, SlotIn(x, s.count - s.used), junk), s.used - 1, s.used - s.count, s.count)])
    case WriteBase => WithCurrent(s.(producer := BaseWritten), x.(entries := x.entries[slot := x.entries[slot].(base := Wrap(s.count * BLOCK_SIZE))]))
    case WriteBlock => WithCurrent(s.(producer := BlockWritten), x.(entries := x.entries[slot := x.entries[slot].(block := s.blockOf[s.count])]))
    case StoreFront => WithCurrent(s.(producer := Ready, count := s.count + 1), x.(front := slot, upTo := s.count + 1))
    case Publish(k) => s.(tail := s.tail + k)
  }

  ghost predicate Init(s: State) {
    && |s.headers| == 1 && |s.headers[0].entries| > 0 && INDEX_RANGE % |s.headers[0].entries| == 0 && |s.headers[0].entries| * BLOCK_SIZE <= HALF
    && s.headers[0].bias == 0 && s.headers[0].upTo == 0
    && s.tail == s.head == s.count == s.used == s.low == 0 && s.blockOf == map[] && s.producer == Ready
    && (forall b | b in s.flags :: |s.flags[b]| == BLOCK_SIZE) && (s.limit.Some? ==> s.limit.value % BLOCK_SIZE == 0)
    && forall t | 0 <= t < |s.consumers| :: s.consumers[t] == Idle
  }

  ghost predicate IsRun(run: seq<State>, actions: seq<Action>) {
    && |run| == |actions| + 1 && Init(run[0])
    && forall i | 0 <= i < |actions| :: Enabled(run[i], actions[i]) && run[i + 1] == Apply(run[i], actions[i])
  }

  // ---- The laws of the circle and the index ----------------------------------------------

  /** The header has block number j, in its slot. */
  ghost predicate HasBlock(x: Header, blockOf: map<nat, Block>, j: nat) {
    |x.entries| > 0 && j in blockOf && x.entries[SlotIn(x, j)] == Slots(Wrap(j * BLOCK_SIZE), blockOf[j])
  }

  ghost predicate HeaderLaw(x: Header, blockOf: map<nat, Block>, low: nat) {
    && |x.entries| > 0 && INDEX_RANGE % |x.entries| == 0 && |x.entries| * BLOCK_SIZE <= HALF
    && x.upTo <= low + |x.entries|
    && (x.upTo > 0 ==> x.front == SlotIn(x, x.upTo - 1))
    && forall j: nat | low <= j < x.upTo :: HasBlock(x, blockOf, j)
  }

  ghost predicate HeadersLaw(s: State) {
    |s.headers| > 0 && forall h | 0 <= h < |s.headers| :: HeaderLaw(s.headers[h], s.blockOf, s.low) && s.headers[h].upTo <= s.count
  }

  /** Block numbers started, counting the one the producer is at work on. */
  function Started(s: State): nat { if HasChosen(s.producer) then s.count + 1 else s.count }

  predicate HasChosen(p: Producer) { p.Reset? || p == Chosen || p == BaseWritten || p == BlockWritten }

  ghost predicate CircleLaw(s: State)
    requires |s.headers| > 0
  {
    && s.low <= s.count && s.low + s.used == Started(s) && s.used <= |Current(s).entries| && Current(s).upTo == s.count
    && (forall j: nat | s.low <= j < Started(s) :: j in s.blockOf)
    && (forall i: nat, j: nat | s.low <= i < j < Started(s) && i in s.blockOf && j in s.blockOf :: s.blockOf[i] != s.blockOf[j])
  }

  /** The slot that the producer is writing, as far as it has got. */
  ghost predicate WritingLaw(s: State)
    requires |s.headers| > 0
  {
    var x := Current(s);
    |x.entries| > 0 &&
    var y := x.entries[SlotIn(x, s.count)];
    && (s.producer == BaseWritten || s.producer == BlockWritten ==> y.base == Wrap(s.count * BLOCK_SIZE))
    && (s.producer == BlockWritten ==> s.count in s.blockOf && y.block == s.blockOf[s.count])
  }

  /** Every block in the circle has its flags. */
  ghost predicate FlagsLaw(s: State) {
    && (forall b | b in s.flags :: |s.flags[b]| == BLOCK_SIZE)
    && (forall q: nat | s.low <= q < Started(s) :: q in s.blockOf && s.blockOf[q] in s.flags)
  }

  /** What the producer has seen of the oldest block's flags is still so, and what it has reset of the tail
      block's flags stays reset. */
  ghost predicate ScanLaw(s: State) {
    && (s.producer.Scan? ==> s.used > 0 && s.producer.seen < BLOCK_SIZE && AllAre(s, s.low, s.producer.seen, true))
    && (s.producer.Reset? ==> s.producer.cleared < BLOCK_SIZE && AllAre(s, s.count, s.producer.cleared, false))
    && (HasChosen(s.producer) && !s.producer.Reset? ==> AllAre(s, s.count, BLOCK_SIZE, false))
  }

  /** The first k flags of block number q. */
  ghost predicate AllAre(s: State, q: nat, k: nat, value: bool) {
    q in s.blockOf && s.blockOf[q] in s.flags && k <= |s.flags[s.blockOf[q]]| && forall j | 0 <= j < k :: s.flags[s.blockOf[q]][j] == value
  }

  ghost predicate TailLaw(s: State) {
    && s.low * BLOCK_SIZE <= s.head <= s.tail <= s.count * BLOCK_SIZE
    && (s.producer != Ready ==> s.tail == s.count * BLOCK_SIZE)
  }

  ghost predicate IndexInv(s: State) { HeadersLaw(s) && CircleLaw(s) && WritingLaw(s) && TailLaw(s) && FlagsLaw(s) && ScanLaw(s) }

  lemma CurrentFacts(s: State)
    requires IndexInv(s)
    ensures HeaderLaw(Current(s), s.blockOf, s.low) && |Current(s).entries| > 0
  {
    assert HeaderLaw(s.headers[|s.headers| - 1], s.blockOf, s.low);
  }

  lemma SlotsDiffer(x: Header, i: int, j: int)
    requires |x.entries| > 0 && i < j < i + |x.entries|
    ensures SlotIn(x, i) != SlotIn(x, j)
  {
    SlotIsInjective(x.bias, i, j, |x.entries|);
  }

  /** Taking a block for number `count` leaves all headers right. */
  lemma ChooseKeepsHeaders(s: State, s': State)
    requires IndexInv(s) && s'.headers == s.headers && s'.count == s.count && s.low <= s'.low
    requires forall q | q in s.blockOf && q < s.count :: q in s'.blockOf && s'.blockOf[q] == s.blockOf[q]
    ensures HeadersLaw(s')
  {
    forall h | 0 <= h < |s'.headers| ensures HeaderLaw(s'.headers[h], s'.blockOf, s'.low) && s'.headers[h].upTo <= s'.count {
      assert HeaderLaw(s.headers[h], s.blockOf, s.low);
      forall j: nat | s'.low <= j < s'.headers[h].upTo ensures HasBlock(s'.headers[h], s'.blockOf, j) {
        assert HasBlock(s.headers[h], s.blockOf, j);
      }
    }
  }

  /** The last flag of the oldest block is set: all its elements have been claimed, and flagged. */
  lemma OldestIsRead(s: State, i: nat)
    requires IndexInv(s) && ElementsLaw(s) && Enabled(s, ScanFlag) && Apply(s, ScanFlag).producer.Reset?
    requires i / BLOCK_SIZE == s.low
    ensures i < s.head && IsFlagged(s, i) && Sum(s.consumers, PendWeight(i)) == 0
  {
    assert ElementLaw(s, i);
    var b := s.blockOf[s.low];
    assert AllAre(s, s.low, s.producer.seen, true);
    assert s.flags[b][FlagAt(i)];
  }

  lemma ScanKeepsIndex(s: State)
    requires IndexInv(s) && ElementsLaw(s) && Enabled(s, ScanFlag)
    ensures IndexInv(Apply(s, ScanFlag))
  {
    hide HeaderLaw, HasBlock, ElementsLaw, IsFlagged, FlagAt, Slot, Wrap;
    var s' := Apply(s, ScanFlag);
    if s'.producer.Reset? {
      OldestIsRead(s, s.low * BLOCK_SIZE + BLOCK_SIZE - 1);
      ChooseKeepsHeaders(s, s');
    }
  }

  lemma InsertKeepsIndex(s: State, b: Block)
    requires IndexInv(s) && Enabled(s, Insert(b))
    ensures IndexInv(Apply(s, Insert(b)))
  {
    ChooseKeepsHeaders(s, Apply(s, Insert(b)));
  }

  lemma ResetKeepsIndex(s: State)
    requires IndexInv(s) && Enabled(s, ResetFlag)
    ensures IndexInv(Apply(s, ResetFlag))
  {
    var s' := Apply(s, ResetFlag);
    ChooseKeepsHeaders(s, s');
  }

  lemma WriteKeepsHeaders(s: State, a: Action)
    requires IndexInv(s) && Enabled(s, a) && (a.WriteBase? || a.WriteBlock? || a.StoreFront?)
    ensures HeadersLaw(Apply(s, a))
  {
    hide Wrap, Slot, FlagsLaw, ScanLaw, TailLaw, Reads, Step;
    var s', x := Apply(s, a), Current(s);
    CurrentFacts(s);
    forall h | 0 <= h < |s'.headers| ensures HeaderLaw(s'.headers[h], s'.blockOf, s'.low) && s'.headers[h].upTo <= s'.count {
      assert HeaderLaw(s.headers[h], s.blockOf, s.low);
      forall j: nat | s'.low <= j < s'.headers[h].upTo ensures HasBlock(s'.headers[h], s'.blockOf, j) {
        if j < s.headers[h].upTo {
          assert HasBlock(s.headers[h], s.blockOf, j);
          SlotsDiffer(x, j, s.count);
        }
      }
    }
  }

  /** Writing the next slot touches no block number that a consumer can still need. */
  lemma WriteKeepsIndex(s: State, a: Action)
    requires IndexInv(s) && Enabled(s, a) && (a.WriteBase? || a.WriteBlock? || a.StoreFront?)
    ensures IndexInv(Apply(s, a))
  {
    WriteKeepsHeaders(s, a);
    CurrentFacts(s);
    hide HeadersLaw, HeaderLaw, AllAre;
  }

  lemma GrowKeepsIndex(s: State, junk: seq<Slots>)
    requires IndexInv(s) && Enabled(s, Grow(junk))
    ensures IndexInv(Apply(s, Grow(junk)))
  {
    hide AllAre, Step, Reads, Wrap;
    var s', x := Apply(s, Grow(junk)), Current(s);
    var x', n := Current(s'), s.used;
    CurrentFacts(s);
    forall j: nat | s.low <= j < s.count ensures HasBlock(x', s.blockOf, j) {
      assert HasBlock(x, s.blockOf, j);
      RemainderIsUnique(n - s.count + j, 0, n - s.count + j, 2 * n);
      SlotShift(x.bias, s.low, j - s.low, n);
    }
    if s.count > 0 {
      RemainderIsUnique(n - 1, 0, n - 1, 2 * n);
    }
    forall h | 0 <= h < |s'.headers| ensures HeaderLaw(s'.headers[h], s'.blockOf, s'.low) && s'.headers[h].upTo <= s'.count {
      if h < |s.headers| {
        assert HeaderLaw(s.headers[h], s.blockOf, s.low);
      }
    }
  }

  lemma QuietKeepsIndex(s: State, a: Action)
    requires IndexInv(s) && Enabled(s, a) && (a.Publish? || a.Claim? || a.StartScan? || a.CheckRoom? || a.GiveUp?)
    ensures IndexInv(Apply(s, a))
  {
    var s' := Apply(s, a);
    assert s'.headers == s.headers && s'.blockOf == s.blockOf && s'.low == s.low && s'.flags == s.flags;
    ChooseKeepsHeaders(s, s');
  }

  // ---- Elements ----------------------------------------------------------------------

  /** The consumer has claimed the element and not flagged it as read. */
  predicate Pending(c: Consumer, i: nat) {
    match c
    case Idle => false
    case Read(_, stop, _, _, from, _) => from <= i < stop
    case SetEmpty(next, stop, _, _, from, _, left) => from <= i < left || next <= i < stop
    case _ => c.next <= i < c.stop
  }

  function PendWeight(i: nat): Consumer -> nat { (c: Consumer) => if Pending(c, i) then 1 else 0 }

  ghost predicate IsFlagged(s: State, i: nat) {
    var q := i / BLOCK_SIZE;
    q in s.blockOf && s.blockOf[q] in s.flags && |s.flags[s.blockOf[q]]| == BLOCK_SIZE && s.flags[s.blockOf[q]][FlagAt(i)]
  }

  /** A claimed element of a block in the circle is flagged as read or pending with exactly one consumer; of
      any other element nobody has anything pending, and what has not been claimed is not flagged. */
  ghost predicate ElementLaw(s: State, i: nat) {
    && Sum(s.consumers, PendWeight(i)) == (if s.low * BLOCK_SIZE <= i < s.head && !IsFlagged(s, i) then 1 else 0)
    && (s.head <= i < s.count * BLOCK_SIZE ==> !IsFlagged(s, i))
  }

  ghost predicate ElementsLaw(s: State) { forall i: nat :: ElementLaw(s, i) }

  lemma PendingMoves(s: State, t: nat, c: Consumer, i: nat)
    requires t < |s.consumers|
    ensures Sum(s.consumers[t := c], PendWeight(i)) == Sum(s.consumers, PendWeight(i)) - PendWeight(i)(s.consumers[t]) + PendWeight(i)(c)
  {
    SumUpdate(s.consumers, t, c, PendWeight(i));
    SumMember(s.consumers, t, PendWeight(i));
  }

  lemma ClaimKeepsElements(s: State, t: nat, k: nat)
    requires IndexInv(s) && ElementsLaw(s) && Enabled(s, Claim(t, k))
    ensures ElementsLaw(Apply(s, Claim(t, k)))
  {
    var s' := Apply(s, Claim(t, k));
    forall i: nat ensures ElementLaw(s', i) {
      assert ElementLaw(s, i);
      PendingMoves(s, t, LoadHeader(s.head, s.head + k), i);
    }
  }

  /** Steps that change neither consumers nor head nor flags of the blocks in the circle. */
  lemma SameElements(s: State, s': State)
    requires IndexInv(s) && ElementsLaw(s) && s'.consumers == s.consumers && s'.head == s.head && s'.low == s.low
    requires s'.count == s.count
    requires forall q: nat | s.low <= q < s.count && q in s.blockOf && s.blockOf[q] in s.flags ::
               q in s'.blockOf && s'.blockOf[q] == s.blockOf[q] && s.blockOf[q] in s'.flags && s'.flags[s.blockOf[q]] == s.flags[s.blockOf[q]]
    ensures ElementsLaw(s')
  {
    forall i: nat ensures ElementLaw(s', i) {
      assert ElementLaw(s, i);
      if s.low * BLOCK_SIZE <= i < s.count * BLOCK_SIZE {
        InBlock(s.low, i, s.count);
        assert IsFlagged(s', i) == IsFlagged(s, i);
      }
    }
  }

  lemma InBlock(lo: nat, i: nat, hi: nat)
    requires lo * BLOCK_SIZE <= i < hi * BLOCK_SIZE
    ensures lo <= i / BLOCK_SIZE < hi
  {}

  lemma ScanKeepsElements(s: State)
    requires IndexInv(s) && ElementsLaw(s) && Enabled(s, ScanFlag)
    ensures ElementsLaw(Apply(s, ScanFlag))
  {
    var s' := Apply(s, ScanFlag);
    if !s'.producer.Reset? {
      SameElements(s, s');
    } else {
      forall i: nat ensures ElementLaw(s', i) {
        assert ElementLaw(s, i);
        if s.low * BLOCK_SIZE <= i < s.count * BLOCK_SIZE {
          InBlock(s.low, i, s.count);
          assert IsFlagged(s', i) == IsFlagged(s, i);
          if i / BLOCK_SIZE == s.low {
            OldestIsRead(s, i);
          }
        }
      }
    }
  }

  /** The front is moved past a block number whose flags have all been reset. */
  lemma StoreFrontKeepsElements(s: State)
    requires IndexInv(s) && ElementsLaw(s) && Enabled(s, StoreFront)
    ensures ElementsLaw(Apply(s, StoreFront))
  {
    var s' := Apply(s, StoreFront);
    forall i: nat ensures ElementLaw(s', i) {
      assert ElementLaw(s, i);
      assert IsFlagged(s', i) == IsFlagged(s, i);
      if s.count * BLOCK_SIZE <= i < s'.count * BLOCK_SIZE {
        InBlock(s.count, i, s'.count);
        assert AllAre(s, s.count, BLOCK_SIZE, false);
      }
    }
  }

  lemma ProduceKeepsElements(s: State, a: Action)
    requires IndexInv(s) && ElementsLaw(s) && Enabled(s, a) && !a.Consume? && !a.Claim? && !a.ScanFlag?
    requires !a.StoreFront?
    ensures ElementsLaw(Apply(s, a))
  {
    SameElements(s, Apply(s, a));
  }

  ghost predicate InOrder(c: Consumer) {
    && (c.LoadBlock? ==> c.next <= c.stop)
    && (c.Read? ==> c.from <= c.next < c.stop)
  }

  lemma LookMoves(s: State, t: nat, i: nat)
    requires Enabled(s, Consume(t)) && !s.consumers[t].SetEmpty? && InOrder(s.consumers[t])
    ensures var c' := Step(s, t).consumers[t]; Step(s, t) == s.(consumers := s.consumers[t := c']) && Pending(c', i) == Pending(s.consumers[t], i)
  {
    hide LookupSlot, BlockBase;
    assert s.consumers[t := s.consumers[t]] == s.consumers;
  }

  lemma LookKeepsElements(s: State, t: nat)
    requires ElementsLaw(s) && Enabled(s, Consume(t)) && !s.consumers[t].SetEmpty?
    requires InOrder(s.consumers[t])
    ensures ElementsLaw(Step(s, t))
  {
    var s' := Step(s, t);
    forall i: nat ensures ElementLaw(s', i) {
      LookMoves(s, t, i);
      hide Step;
      assert ElementLaw(s, i);
      PendingMoves(s, t, s'.consumers[t], i);
      assert IsFlagged(s', i) == IsFlagged(s, i);
    }
  }

  /** Setting the flag of one element changes that of no other in the circle. */
  lemma OneFlag(s: State, s': State, i: nat, j: nat)
    requires IndexInv(s) && s.low <= i / BLOCK_SIZE < s.count && s.low <= j / BLOCK_SIZE < s.count
    requires i / BLOCK_SIZE in s.blockOf && s.blockOf[i / BLOCK_SIZE] in s.flags
    requires |s.flags[s.blockOf[i / BLOCK_SIZE]]| == BLOCK_SIZE
    requires s'.blockOf == s.blockOf
    requires var b := s.blockOf[i / BLOCK_SIZE]; s'.flags == s.flags[b := s.flags[b][FlagAt(i) := true]]
    ensures IsFlagged(s', j) == (j == i || IsFlagged(s, j))
  {
    var q, r := i / BLOCK_SIZE, j / BLOCK_SIZE;
    assert r in s.blockOf && s.blockOf[r] in s.flags;
    if q == r && i != j {
      assert FlagAt(i) != FlagAt(j);
    }
  }

  ghost predicate IsSetting(s: State, t: nat) {
    t < |s.consumers| && s.consumers[t].SetEmpty? &&
    var SetEmpty(next, stop, _, _, from, block, left) := s.consumers[t];
    && from < left <= next <= stop && left <= s.head && s.low <= (left - 1) / BLOCK_SIZE < s.count
    && (left - 1) / BLOCK_SIZE in s.blockOf && s.blockOf[(left - 1) / BLOCK_SIZE] == block
  }

  lemma SetEmptyKeepsElements(s: State, t: nat)
    requires IndexInv(s) && ElementsLaw(s) && Enabled(s, Consume(t)) && IsSetting(s, t)
    ensures ElementsLaw(Step(s, t))
  {
    var SetEmpty(next, stop, h, slot, from, block, left) := s.consumers[t];
    var s', at := Step(s, t), left - 1;
    assert Pending(s.consumers[t], at);
    forall i: nat ensures ElementLaw(s', i) {
      assert ElementLaw(s, i);
      PendingMoves(s, t, s'.consumers[t], i);
      SumMember(s.consumers, t, PendWeight(i));
      assert Pending(s'.consumers[t], i) == (Pending(s.consumers[t], i) && i != at);
      if s.low * BLOCK_SIZE <= i < s.count * BLOCK_SIZE {
        InBlock(s.low, i, s.count);
        OneFlag(s, s', at, i);
      }
    }
  }

  /** A block number of which a consumer has an element not yet flagged is in the circle, and the element's
      flag is clear. */
  lemma PendingIsLive(s: State, t: nat, i: nat)
    requires IndexInv(s) && ElementsLaw(s) && t < |s.consumers| && Pending(s.consumers[t], i)
    ensures s.low <= i / BLOCK_SIZE < s.count && i < s.head && !IsFlagged(s, i)
  {
    assert ElementLaw(s, i);
    SumMember(s.consumers, t, PendWeight(i));
    InBlock(s.low, i, s.count);
  }

  // ---- What each consumer knows --------------------------------------------------------

  ghost predicate AtSlot(s: State, h: nat, slot: nat, q: int) {
    h < |s.headers| && |s.headers[h].entries| > 0 && slot == SlotIn(s.headers[h], q)
  }

  /** A header that has been started, and every block that the consumer has claimed elements of. */
  ghost predicate Covers(s: State, h: nat, next: nat, stop: nat) {
    next <= stop <= s.head && h < |s.headers| && s.headers[h].upTo > 0 && (next < stop ==> (stop - 1) / BLOCK_SIZE < s.headers[h].upTo)
  }

  ghost predicate HasOwn(s: State, q: nat, block: Block) { q < s.count && q in s.blockOf && block == s.blockOf[q] }

  ghost predicate LocalLaw(s: State, c: Consumer) {
    match c
    case Idle => true
    case LoadHeader(next, stop) => next <= stop <= s.head && s.count > 0
    case LoadFront(next, stop, h) => Covers(s, h, next, stop)
    case LoadBase(next, stop, h, slot, p) => Covers(s, h, next, stop) && AtSlot(s, h, slot, p) && p < s.headers[h].upTo && (next < stop ==> next / BLOCK_SIZE <= p)
    case LoadBlock(next, stop, h, slot) =>
      Covers(s, h, next, stop) && slot < |s.headers[h].entries| && (next < stop ==> AtSlot(s, h, slot, next / BLOCK_SIZE))
    case Read(next, stop, h, slot, from, block) =>
      Covers(s, h, from, stop) && AtSlot(s, h, slot, from / BLOCK_SIZE) && from <= next < PartEnd(from, stop) <= stop && HasOwn(s, from / BLOCK_SIZE, block)
    case SetEmpty(next, stop, h, slot, from, block, left) =>
      && Covers(s, h, from, stop) && AtSlot(s, h, slot, from / BLOCK_SIZE) && from < left <= next == PartEnd(from, stop) <= stop
      && HasOwn(s, from / BLOCK_SIZE, block)
  }

  ghost predicate LocalsLaw(s: State) { forall t | 0 <= t < |s.consumers| :: LocalLaw(s, s.consumers[t]) }

  /** The base that a consumer loads through the front it saw is that of the front's block number, and the
      slot it computes is that of its own block, however stale header and front are. */
  lemma LookupIsRight(s: State, t: nat)
    requires IndexInv(s) && ElementsLaw(s) && t < |s.consumers| && s.consumers[t].LoadBase?
    requires LocalLaw(s, s.consumers[t])
    requires s.consumers[t].next < s.consumers[t].stop
    ensures var LoadBase(next, stop, h, slot, p) := s.consumers[t]; var x := s.headers[h];
            && slot < |x.entries| && x.entries[slot].base == Wrap(p * BLOCK_SIZE)
            && LookupSlot(slot, x.entries[slot].base, BlockBase(Wrap(next)), |x.entries|) == SlotIn(x, next / BLOCK_SIZE)
  {
    var LoadBase(next, stop, h, slot, p) := s.consumers[t];
    var x, q := s.headers[h], next / BLOCK_SIZE;
    PendingIsLive(s, t, next);
    assert HeaderLaw(x, s.blockOf, s.low);
    assert HasBlock(x, s.blockOf, p);
    BlockBaseIsFloor(next);
    Within(q, p, |x.entries|);
    LookupIsExact(x.bias, q, p, |x.entries|);
  }

  /** And that slot has its block. */
  lemma BlockIsRight(s: State, t: nat)
    requires IndexInv(s) && ElementsLaw(s) && t < |s.consumers| && s.consumers[t].LoadBlock?
    requires LocalLaw(s, s.consumers[t])
    requires s.consumers[t].next < s.consumers[t].stop
    ensures var LoadBlock(next, stop, h, slot) := s.consumers[t]; var x, q := s.headers[h], next / BLOCK_SIZE;
            q in s.blockOf && s.low <= q < s.count && slot < |x.entries| && x.entries[slot] == Slots(Wrap(q * BLOCK_SIZE), s.blockOf[q])
  {
    var LoadBlock(next, stop, h, slot) := s.consumers[t];
    PendingIsLive(s, t, next);
    BlocksInOrder(next, stop - 1);
    assert HeaderLaw(s.headers[h], s.blockOf, s.low);
    assert HasBlock(s.headers[h], s.blockOf, next / BLOCK_SIZE);
  }

  /** A consumer that sets flags has the block in the circle, with the next flag clear. */
  lemma SettingIsRight(s: State, t: nat)
    requires IndexInv(s) && ElementsLaw(s) && t < |s.consumers| && s.consumers[t].SetEmpty?
    requires LocalLaw(s, s.consumers[t])
    ensures IsSetting(s, t) && s.consumers[t].block in s.flags && |s.flags[s.consumers[t].block]| == BLOCK_SIZE
    ensures !s.flags[s.consumers[t].block][FlagAt(s.consumers[t].left - 1)]
  {
    var c := s.consumers[t];
    PendingIsLive(s, t, c.left - 1);
    SameBlockNumber(c.from, c.left - 1, c.stop);
  }

  lemma ReadsAreSafe(s: State, t: nat)
    requires IndexInv(s) && ElementsLaw(s) && t < |s.consumers| && LocalLaw(s, s.consumers[t])
    ensures Reads(s, s.consumers[t])
  {
    if s.consumers[t].SetEmpty? {
      SettingIsRight(s, t);
    }
  }

  ghost predicate HeaderKept(x: Header, x': Header) {
    |x'.entries| == |x.entries| && x'.bias == x.bias && x'.upTo >= x.upTo
  }

  ghost predicate Kept(s: State, s': State) {
    && |s.headers| <= |s'.headers| && (forall h | 0 <= h < |s.headers| :: HeaderKept(s.headers[h], s'.headers[h]))
    && s.head <= s'.head && s.count <= s'.count
    && forall q | q in s.blockOf && q < s.count :: q in s'.blockOf && s'.blockOf[q] == s.blockOf[q]
  }

  lemma LocalStays(s: State, s': State, c: Consumer)
    requires LocalLaw(s, c) && Kept(s, s')
    ensures LocalLaw(s', c)
  {
    hide PartEnd;
    if c != Idle && !c.LoadHeader? {
      assert HeaderKept(s.headers[c.h], s'.headers[c.h]);
    }
  }

  lemma ApplyKept(s: State, a: Action)
    requires IndexInv(s) && Enabled(s, a)
    ensures Kept(s, Apply(s, a))
  {
    hide LookupSlot, BlockBase, PartEnd;
    if a.Consume? {
      StepKept(s, a.t);
    }
  }

  lemma StepKept(s: State, t: nat)
    requires t < |s.consumers| && Reads(s, s.consumers[t]) && |s.headers| > 0
    ensures Kept(s, Step(s, t)) && |Step(s, t).consumers| == |s.consumers|
    ensures forall u | 0 <= u < |s.consumers| && u != t :: Step(s, t).consumers[u] == s.consumers[u]
  {
    hide LookupSlot, BlockBase, PartEnd;
  }

  lemma LookStep(s: State, t: nat)
    requires IndexInv(s) && ElementsLaw(s) && t < |s.consumers| && LocalLaw(s, s.consumers[t])
    requires Reads(s, s.consumers[t])
    requires s.consumers[t].LoadHeader? || s.consumers[t].LoadFront? || s.consumers[t].LoadBase? || s.consumers[t].LoadBlock?
    ensures LocalLaw(Step(s, t), Step(s, t).consumers[t])
  {
    var c := s.consumers[t];
    CurrentFacts(s);
    if c.next < c.stop {
      BlocksInOrder(c.next, c.stop - 1);
      HeadInCount(s, c.stop - 1);
    }
    if c.LoadFront? {
      assert HeaderLaw(s.headers[c.h], s.blockOf, s.low);
    } else if c.LoadBase? && c.next < c.stop {
      LookupIsRight(s, t);
    } else if c.LoadBlock? && c.next < c.stop {
      BlockIsRight(s, t);
      PartIs(c.next, c.stop, 0);
    }
  }

  lemma HeadInCount(s: State, i: nat)
    requires TailLaw(s) && i < s.head
    ensures i / BLOCK_SIZE < s.count
  {
    InBlock(0, i, s.count);
  }

  lemma ReadStep(s: State, t: nat)
    requires t < |s.consumers| && LocalLaw(s, s.consumers[t]) && Reads(s, s.consumers[t]) && |s.headers| > 0
    requires s.consumers[t].Read? || s.consumers[t].SetEmpty?
    ensures LocalLaw(Step(s, t), Step(s, t).consumers[t])
  {
    var c := s.consumers[t];
    PartIs(c.from, c.stop, 0);
    hide PartEnd;
    SlotShift(s.headers[c.h].bias, c.from / BLOCK_SIZE, 1, |s.headers[c.h].entries|);
  }
}
