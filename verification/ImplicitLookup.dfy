/** Consumers looking blocks up in the index of an implicit producer while the producer inserts, grows the
    index and takes insertions back: one step per atomic operation, any number of consumers.

    A consumer works with the header it loaded, however stale that is by then.  Headers share entries, each
    header's slots are numbered from a bias of its own, and an entry is used again for a later block once
    its block has gone.  `home`, `low` and the last three fields of a header are history: `home[j]` is the
    entry of block number j, and the keys of [low, upTo) are those of the block numbers themselves. */
module ImplicitLookup {
  import opened Claims
  import opened Modular
  import opened Options
  import opened Wraparound
  import opened IndexRing

  type Block = nat

  /** `last` is the block number that the tail slot was keyed for; those below `upTo` have been keyed. */
  datatype Header = Header(index: seq<nat>, tail: nat, bias: int, last: int, upTo: nat)

  /** `next` and `stop` are what is left of the indices claimed; `from` is where the current block's share
      of them starts; `p` is history. */
  datatype Consumer =
    | Idle
    | LoadHeader(next: nat, stop: nat)
    | LoadTail(next: nat, stop: nat, h: nat)
    | LoadKey(next: nat, stop: nat, h: nat, slot: nat, p: nat)
    | LoadValue(next: nat, stop: nat, h: nat, slot: nat)
    | Read(next: nat, stop: nat, h: nat, slot: nat, from: nat, block: Block)
    | Count(next: nat, stop: nat, h: nat, slot: nat, from: nat, block: Block)
    | Clear(next: nat, stop: nat, h: nat, slot: nat, q: nat, block: Block)
    | Release(next: nat, stop: nat, h: nat, slot: nat, block: Block)

  datatype Producer =
    | Ready
    | Fit                      // the next entry has been seen free
    | Full                     // the next entry has been seen taken: the index has to grow
    | Keyed                    // the next entry has its key
    | Claimed                  // and the tail points at it
    | BackOff                  // no block: the tail is back, the entry still to be emptied
    | Undo(undone: nat)
    | UndoTail(undone: nat)    // one more entry emptied, the tail still to follow

  datatype State = State(
    headers: seq<Header>, entries: seq<Entry>, tail: nat, head: nat, count: nat,
    blocks: map<nat, Block>, done: map<nat, nat>, free: set<Block>, spare: set<Block>,
    producer: Producer, consumers: seq<Consumer>, home: map<nat, nat>, low: nat)

  function EntryIn(x: Header, j: int): nat
    requires |x.index| > 0
  {
    x.index[Slot(x.bias, j, |x.index|)]
  }

  function Undone(p: Producer): nat { if p.Undo? then p.undone else if p.UndoTail? then p.undone + 1 else 0 }

  // ---- Steps -------------------------------------------------------------------------

  /** On to the next block, or done. */
  function OnTo(next: nat, stop: nat, h: nat, slot: nat, capacity: nat): Consumer
    requires capacity > 0
  {
    if next == stop then Idle else LoadValue(next, stop, h, (slot + 1) % capacity)
  }

  predicate Reads(s: State, c: Consumer) {
    match c
    case LoadTail(_, _, h) => h < |s.headers|
    case LoadKey(_, _, h, slot, _) => h < |s.headers| && slot < |s.headers[h].index| && s.headers[h].index[slot] < |s.entries|
    case LoadValue(_, _, h, slot) => h < |s.headers| && slot < |s.headers[h].index| && s.headers[h].index[slot] < |s.entries| && s.entries[s.headers[h].index[slot]].value.Some?
    case Count(next, _, h, _, from, _) => from <= next && h < |s.headers| && |s.headers[h].index| > 0 && from / BLOCK_SIZE in s.done
    case Clear(_, _, h, slot, _, _) => h < |s.headers| && slot < |s.headers[h].index| && s.headers[h].index[slot] < |s.entries|
    case Release(_, _, h, _, _) => h < |s.headers| && |s.headers[h].index| > 0
    case _ => true
  }

  /** One operation of consumer t after it has claimed. */
  function Step(s: State, t: nat): State
    requires t < |s.consumers| && Reads(s, s.consumers[t]) && |s.headers| > 0
  {
    match s.consumers[t]
    case Idle => s
    case LoadHeader(next, stop) =>
      s.(consumers := s.consumers[t := LoadTail(next, stop, |s.headers| - 1)])
    case LoadTail(next, stop, h) =>
      var x := s.headers[h];
      s.(consumers := s.consumers[t := LoadKey(next, stop, h, x.tail, if x.last < 0 then 0 else x.last)])
    case LoadKey(next, stop, h, slot, _) =>
      var x := s.headers[h];
      var tailBase := s.entries[x.index[slot]].key;
      s.(consumers := s.consumers[t := LoadValue(next, stop, h, LookupSlot(slot, tailBase, BlockBase(Wrap(next)), |x.index|))])
    case LoadValue(next, stop, h, slot) =>
      var block := s.entries[s.headers[h].index[slot]].value.value;
      s.(consumers := s.consumers[t := if next == stop then Count(next, stop, h, slot, next, block) else Read(next, stop, h, slot, next, block)])
    case Read(next, stop, h, slot, from, block) =>
      s.(consumers := s.consumers[t := if next + 1 < PartEnd(from, stop) then Read(next + 1, stop, h, slot, from, block) else Count(next + 1, stop, h, slot, from, block)])
    case Count(next, stop, h, slot, from, block) =>
      var q := from / BLOCK_SIZE;
      var sum := s.done[q] + next - from;
      s.(done := s.done[q := sum],
         consumers := s.consumers[t := if sum == BLOCK_SIZE then Clear(next, stop, h, slot, q, block) else OnTo(next, stop, h, slot, |s.headers[h].index|)])
    case Clear(next, stop, h, slot, q, block) =>
      var e := s.headers[h].index[slot];
      s.(entries := s.entries[e := s.entries[e].(value := None)], blocks := s.blocks - {q},
         consumers := s.consumers[t := Release(next, stop, h, slot, block)])
    case Release(next, stop, h, slot, block) =>
      s.(free := s.free + {block}, consumers := s.consumers[t := OnTo(next, stop, h, slot, |s.headers[h].index|)])
  }

  datatype Action =
    | Consume(t: nat)
    | Claim(t: nat, k: nat)
    | Test | GiveUp | Key | MoveTail | Store(block: Block) | Rewind | Null
    | Grow(added: seq<Entry>)
    | Publish(k: nat)
    | StartUndo | UndoNull | UndoRewind | EndUndo

  function Current(s: State): Header
    requires |s.headers| > 0
  {
    s.headers[|s.headers| - 1]
  }

  function NextEntry(x: Header): nat
    requires |x.index| > 0
  {
    x.index[(x.tail + 1) % |x.index|]
  }

  predicate HasIndex(s: State) {
    && |s.headers| > 0 && |Current(s).index| > 0 && Current(s).tail < |Current(s).index|
    && forall i | 0 <= i < |Current(s).index| :: Current(s).index[i] < |s.entries|
  }

  predicate Enabled(s: State, a: Action) {
    && HasIndex(s)
    && match a
       case Consume(t) => t < |s.consumers| && Reads(s, s.consumers[t])
       // k is zero for a bulk dequeue of at most zero elements, which runs its loop once all the same
       case Claim(t, k) => t < |s.consumers| && s.consumers[t] == Idle && s.head + k <= s.tail && s.tail > 0
       case Test => s.producer == Ready
       case GiveUp => s.producer == Full
       case Key => s.producer == Fit
       case MoveTail => s.producer == Keyed
       case Store(b) => s.producer == Claimed && b in s.free
       case Rewind => s.producer == Claimed
       case Null => s.producer == BackOff
       case Grow(added) =>
         && s.producer == Full
         && |added| == |Current(s).index| && (forall e | 0 <= e < |added| :: added[e].key == INVALID_BLOCK_BASE)
         && INDEX_RANGE % (2 * |added|) == 0 && 2 * |added| * BLOCK_SIZE <= HALF
       case Publish(k) => s.producer == Ready && s.tail + k <= s.count * BLOCK_SIZE
       case StartUndo => s.producer == Ready && Published(s.tail) < s.count
       case UndoNull => s.producer.Undo? && Published(s.tail) + s.producer.undone < s.count
                        && Published(s.tail) + s.producer.undone in s.blocks
                        && FoundEntry(s, Published(s.tail) + s.producer.undone) < |s.entries|
       case UndoRewind => s.producer.UndoTail?
       case EndUndo => s.producer.Undo? && Published(s.tail) + s.producer.undone == s.count
  }

  /** The entry that the producer itself finds for a block number when it takes an insertion back. */
  function FoundEntry(s: State, q: nat): nat
    requires HasIndex(s)
  {
    var x := Current(s);
    x.index[LookupSlot(x.tail, s.entries[x.index[x.tail]].key, Wrap(q * BLOCK_SIZE), |x.index|)]
  }

  function WithCurrent(s: State, x: Header): State
    requires |s.headers| > 0
  {
    s.(headers := s.headers[|s.headers| - 1 := x])
  }

  function Apply(s: State, a: Action): State
    requires Enabled(s, a)
  {
    var x := Current(s);
    match a
    case Consume(t) => Step(s, t)
    case Claim(t, k) => s.(head := s.head + k, consumers := s.consumers[t := LoadHeader(s.head, s.head + k)])
    case Test => s.(producer := if IsFree(s.entries[NextEntry(x)]) then Fit else Full)
    case GiveUp => s.(producer := Ready)
    case Key =>
      var e := NextEntry(x);
      var isNew := s.count == x.upTo;
      WithCurrent(s.(entries := s.entries[e := s.entries[e].(key := Wrap(s.count * BLOCK_SIZE))], producer := Keyed,
                     home := if isNew then s.home[s.count := e] else s.home,
                     low := if isNew && s.low + |x.index| == s.count then s.low + 1 else s.low),
                  if isNew then x.(upTo := s.count + 1) else x)
    case MoveTail => WithCurrent(s.(producer := Claimed), x.(tail := (x.tail + 1) % |x.index|, last := s.count))
    case Store(b) =>
      var e := x.index[x.tail];
      s.(entries := s.entries[e := s.entries[e].(value := Some(b))], blocks := s.blocks[s.count := b],
         done := s.done[s.count := 0],
         free := s.free - {b}, count := s.count + 1, producer := Ready)
    case Rewind => WithCurrent(s.(producer := BackOff), x.(tail := (x.tail - 1) % |x.index|, last := s.count - 1))
    case Null =>
      var e := NextEntry(x);
      s.(entries := s.entries[e := s.entries[e].(value := None)], producer := Ready)
    case Grow(added) =>
      var n := |x.index|;
      s.(entries := s.entries + added, producer := Fit,
         headers := s.headers + [Header(seq(2 * n, i requires 0 <= i < 2 * n => if i < n then x.index[(x.tail + 1 + i) % n] else |s.entries| + i - n),
                                        n - 1, n - s.count, s.count - 1, s.count)])
    case Publish(k) => s.(tail := s.tail + k)
    case StartUndo => s.(producer := Undo(0))
    case UndoNull =>
      var q := Published(s.tail) + s.producer.undone;
      var e := FoundEntry(s, q);
      s.(entries := s.entries[e := s.entries[e].(value := None)], spare := s.spare + {s.blocks[q]},
         blocks := s.blocks - {q},
         producer := UndoTail(s.producer.undone))
    case UndoRewind => WithCurrent(s.(producer := Undo(s.producer.undone + 1)), x.(tail := (x.tail - 1) % |x.index|, last := x.last - 1))
    case EndUndo => s.(free := s.free + s.spare, spare := {}, count := Published(s.tail), producer := Ready)
  }

  ghost predicate Init(s: State) {
    && |s.headers| == 1 && |s.headers[0].index| > 0 && INDEX_RANGE % |s.headers[0].index| == 0 && |s.headers[0].index| * BLOCK_SIZE <= HALF
    && (forall i | 0 <= i < |s.headers[0].index| :: s.headers[0].index[i] < |s.entries|)
    && (forall i, j | 0 <= i < j < |s.headers[0].index| :: s.headers[0].index[i] != s.headers[0].index[j])
    && s.headers[0].tail == |s.headers[0].index| - 1 && s.headers[0].bias == 0 && s.headers[0].last == -1 && s.headers[0].upTo == 0
    && (forall e | 0 <= e < |s.entries| :: s.entries[e].key == INVALID_BLOCK_BASE)
    && s.tail == s.head == s.count == s.low == 0 && s.blocks == map[] && s.spare == {} && s.producer == Ready
    && forall t | 0 <= t < |s.consumers| :: s.consumers[t] == Idle
  }

  ghost predicate IsRun(run: seq<State>, actions: seq<Action>) {
    && |run| == |actions| + 1 && Init(run[0])
    && forall i | 0 <= i < |actions| :: Enabled(run[i], actions[i]) && run[i + 1] == Apply(run[i], actions[i])
  }

  /** Every call asks for at least so many elements. */
  ghost predicate AtLeast(actions: seq<Action>, least: nat) {
    forall i | 0 <= i < |actions| && actions[i].Claim? :: actions[i].k >= least
  }

  // ---- The laws of the index -----------------------------------------------------------

  /** Between claiming an entry and filling or emptying it its value means nothing. */
  predicate InFlight(s: State, j: nat) {
    j == s.count && (s.producer == Keyed || s.producer == Claimed || s.producer == BackOff)
  }

  ghost predicate NumberLaw(s: State, j: nat) {
    && j in s.home && s.home[j] < |s.entries|
    && s.entries[s.home[j]].key == Wrap(j * BLOCK_SIZE)
    && (if j in s.blocks then s.entries[s.home[j]].value == Some(s.blocks[j]) else s.entries[s.home[j]].value == None || InFlight(s, j))
  }

  ghost predicate NumbersLaw(s: State)
    requires |s.headers| > 0
  {
    && (forall j: nat | s.low <= j < Current(s).upTo :: NumberLaw(s, j))
    && (forall i: nat, j: nat | s.low <= i < j < Current(s).upTo && i in s.home && j in s.home :: s.home[i] != s.home[j])
  }

  /** The header's slot for block number j is the entry of block number j. */
  ghost predicate MapsTo(x: Header, home: map<nat, nat>, j: nat) {
    |x.index| > 0 && j in home && EntryIn(x, j) == home[j]
  }

  ghost predicate IsShaped(x: Header, entryCount: nat) {
    && |x.index| > 0 && INDEX_RANGE % |x.index| == 0 && |x.index| * BLOCK_SIZE <= HALF
    && (forall i | 0 <= i < |x.index| :: x.index[i] < entryCount)
    && -1 <= x.last < x.upTo && x.tail == Slot(x.bias, x.last, |x.index|)
  }

  ghost predicate HeaderLaw(x: Header, entryCount: nat, home: map<nat, nat>, low: nat) {
    IsShaped(x, entryCount) && x.upTo <= low + |x.index| && forall j: nat | low <= j < x.upTo :: MapsTo(x, home, j)
  }

  ghost predicate HeadersLaw(s: State) {
    |s.headers| > 0 && forall h | 0 <= h < |s.headers| :: HeaderLaw(s.headers[h], |s.entries|, s.home, s.low) && s.headers[h].upTo <= Current(s).upTo
  }

  /** Which block number the tail is at, by what the producer is doing. */
  function LastOf(s: State): int {
    match s.producer
    case Claimed => s.count
    case Undo(undone) => s.count - 1 - undone
    case UndoTail(undone) => s.count - 1 - undone
    case _ => s.count - 1
  }

  ghost predicate CurrentLaw(s: State)
    requires |s.headers| > 0
  {
    var x := Current(s);
    && IsIndex(x.index, s.entries) && x.last == LastOf(s)
    && s.count + (if s.producer == Keyed || s.producer == Claimed then 1 else 0) <= x.upTo <= s.low + |x.index|
    && (s.producer == BackOff ==> s.count < x.upTo)
    && (forall j: nat | x.upTo <= j < s.low + |x.index| :: FreeAt(x, s.entries, j))
  }

  ghost predicate FreeAt(x: Header, entries: seq<Entry>, j: nat) {
    |x.index| > 0 && EntryIn(x, j) < |entries| && IsFree(entries[EntryIn(x, j)])
  }

  ghost predicate DomainLaw(s: State) {
    var published := Published(s.tail);
    && s.head <= s.tail <= s.count * BLOCK_SIZE && s.low <= published && published + Undone(s.producer) <= s.count
    && (forall q | q in s.blocks :: s.low <= q < s.count && (q < published || published + Undone(s.producer) <= q))
    && (forall q: nat | published + Undone(s.producer) <= q < s.count :: q in s.blocks)
  }

  /** What the producer has seen of the next entry is still so: consumers only free entries, and one that was
      taken was the last of a full window. */
  ghost predicate TestLaw(s: State)
    requires |s.headers| > 0
  {
    && (s.producer == Fit ==> HasIndex(s) && IsFree(s.entries[NextEntry(Current(s))]))
    && (s.producer == Full ==> s.count == Current(s).upTo == s.low + |Current(s).index|)
  }

  ghost predicate IndexInv(s: State) {
    HeadersLaw(s) && CurrentLaw(s) && NumbersLaw(s) && DomainLaw(s) && TestLaw(s)
  }

  // ---- What producer steps do to the index ---------------------------------------------

  lemma CurrentFacts(s: State)
    requires IndexInv(s)
    ensures var x := Current(s); IsShaped(x, |s.entries|) && HasIndex(s) && IsIndex(x.index, s.entries) && s.low <= s.count <= x.upTo
    ensures forall j: nat | s.low <= j < Current(s).upTo :: MapsTo(Current(s), s.home, j)
  {
    assert HeaderLaw(s.headers[|s.headers| - 1], |s.entries|, s.home, s.low);
  }

  /** The entry after the tail, when the tail is at block number count - 1. */
  lemma NextEntryIs(s: State)
    requires IndexInv(s) && Current(s).last == s.count - 1
    ensures HasIndex(s) && NextEntry(Current(s)) == EntryIn(Current(s), s.count)
  {
    CurrentFacts(s);
    var x := Current(s);
    SlotShift(x.bias, s.count - 1, 1, |x.index|);
  }

  /** Slots of different block numbers of a window are different entries. */
  lemma EntriesDiffer(x: Header, entries: seq<Entry>, i: int, j: int)
    requires IsIndex(x.index, entries) && i < j < i + |x.index|
    ensures EntryIn(x, i) != EntryIn(x, j)
  {
    DistinctEntries(x.index, entries, x.bias, i, j);
  }

  lemma SameSlot(x: Header, j: int)
    requires |x.index| > 0
    ensures EntryIn(x, j + |x.index|) == EntryIn(x, j)
  {
    SlotWraps(x.bias, j, |x.index|);
  }

  ghost predicate NobodysHome(home: map<nat, nat>, e: nat, lo: nat, hi: nat) {
    forall j: nat | lo <= j < hi && j in home :: home[j] != e
  }

  /** A free entry after the tail: either the window has room for a new block number, or its oldest one has
      gone, or the block number has been keyed before. */
  lemma KeyRoom(s: State)
    requires IndexInv(s) && s.producer == Fit
    ensures HasIndex(s)
    ensures var x := Current(s); var e := NextEntry(x);
            && (s.count < x.upTo ==> s.count in s.home && e == s.home[s.count] && s.entries[e].key == Wrap(s.count * BLOCK_SIZE))
            && (s.count == x.upTo && s.low + |x.index| == s.count ==> s.low !in s.blocks && s.low in s.home && e == s.home[s.low] && s.low < Published(s.tail))
            && (s.count == x.upTo && s.low + |x.index| > s.count ==> NobodysHome(s.home, e, s.low, s.count))
  {
    CurrentFacts(s);
    NextEntryIs(s);
    var x := Current(s);
    var n, e := |x.index|, NextEntry(x);
    if s.count < x.upTo {
      assert MapsTo(x, s.home, s.count) && NumberLaw(s, s.count);
    } else if s.low + n == s.count {
      SameSlot(x, s.low);
      assert MapsTo(x, s.home, s.low) && NumberLaw(s, s.low);
      KeyIsValid(s.low);
    } else {
      forall j: nat | s.low <= j < s.count && j in s.home ensures s.home[j] != e {
        assert MapsTo(x, s.home, j);
        EntriesDiffer(x, s.entries, j, s.count);
      }
    }
  }

  /** With room in the window, or a block number keyed before, the entry after the tail is free. */
  lemma RoomIsFree(s: State)
    requires IndexInv(s) && s.producer == Ready && (s.count < Current(s).upTo || s.count < s.low + |Current(s).index|)
    ensures HasIndex(s) && IsFree(s.entries[NextEntry(Current(s))])
  {
    CurrentFacts(s);
    NextEntryIs(s);
    var x := Current(s);
    if s.count < x.upTo {
      assert MapsTo(x, s.home, s.count) && NumberLaw(s, s.count);
    } else {
      assert FreeAt(x, s.entries, s.count);
    }
  }

  /** A taken entry after the tail: the window is full to the last slot. */
  lemma GrowFull(s: State)
    requires IndexInv(s) && s.producer == Ready && HasIndex(s) && !IsFree(s.entries[NextEntry(Current(s))])
    ensures s.count == Current(s).upTo == s.low + |Current(s).index|
  {
    CurrentFacts(s);
    if s.count < Current(s).upTo || s.count < s.low + |Current(s).index| {
      RoomIsFree(s);
    }
  }

  /** Changing the entry of one block number leaves the others alone. */
  lemma OneNumberChanges(s: State, s': State, q: nat)
    requires IndexInv(s) && |s'.headers| > 0 && Current(s').upTo == Current(s).upTo && s'.low == s.low
    requires s'.home == s.home
    requires s.low <= q < Current(s).upTo && q in s.home && s.home[q] < |s.entries|
    requires |s'.entries| == |s.entries| && s'.entries == s.entries[s.home[q] := s'.entries[s.home[q]]]
    requires forall j | j != q :: (j in s'.blocks <==> j in s.blocks) && (j in s.blocks ==> s'.blocks[j] == s.blocks[j])
    requires forall j: nat | s.low <= j && j != q && InFlight(s, j) && j !in s.blocks :: InFlight(s', j)
    requires NumberLaw(s', q)
    ensures NumbersLaw(s')
  {
    forall j: nat | s.low <= j < Current(s').upTo ensures NumberLaw(s', j) {
      assert NumberLaw(s, j);
    }
  }

  /** Free slots stay free when the entry of a block number changes. */
  lemma FreeStays(x: Header, entries: seq<Entry>, entries': seq<Entry>, q: nat, low: nat)
    requires IsIndex(x.index, entries) && low <= q < x.upTo <= low + |x.index|
    requires |entries'| == |entries| && entries' == entries[EntryIn(x, q) := entries'[EntryIn(x, q)]]
    requires forall j: nat | x.upTo <= j < low + |x.index| :: FreeAt(x, entries, j)
    ensures IsIndex(x.index, entries') && forall j: nat | x.upTo <= j < low + |x.index| :: FreeAt(x, entries', j)
  {
    forall j: nat | x.upTo <= j < low + |x.index| ensures FreeAt(x, entries', j) {
      assert FreeAt(x, entries, j);
      EntriesDiffer(x, entries, q, j);
    }
  }

  lemma HeadersStay(s: State, s': State)
    requires HeadersLaw(s) && s'.headers == s.headers && |s'.entries| == |s.entries| && s'.home == s.home
    requires s'.low == s.low
    ensures HeadersLaw(s')
  {
    forall h | 0 <= h < |s.headers| ensures HeaderLaw(s'.headers[h], |s'.entries|, s'.home, s'.low) {
      assert HeaderLaw(s.headers[h], |s.entries|, s.home, s.low);
    }
  }

  lemma CurrentMoves(s: State, s': State, tail: nat, last: int)
    requires IndexInv(s) && s'.headers == s.headers[|s.headers| - 1 := Current(s).(tail := tail, last := last)]
    requires |s'.entries| == |s.entries| && s'.home == s.home && s'.low == s.low
    requires -1 <= last < Current(s).upTo && |Current(s).index| > 0
    requires tail == Slot(Current(s).bias, last, |Current(s).index|)
    ensures HeadersLaw(s') && Current(s') == Current(s).(tail := tail, last := last)
  {
    forall h | 0 <= h < |s'.headers| ensures HeaderLaw(s'.headers[h], |s'.entries|, s'.home, s'.low) {
      assert HeaderLaw(s.headers[h], |s.entries|, s.home, s.low);
      forall j: nat | s'.low <= j < s'.headers[h].upTo ensures MapsTo(s'.headers[h], s'.home, j) {
        assert MapsTo(s.headers[h], s.home, j);
      }
    }
  }

  lemma NumbersStay(s: State, s': State)
    requires IndexInv(s) && |s'.headers| > 0 && Current(s').upTo == Current(s).upTo && s'.low == s.low
    requires s'.home == s.home
    requires s'.entries == s.entries && s'.blocks == s.blocks
    requires forall j: nat | InFlight(s, j) :: InFlight(s', j)
    ensures NumbersLaw(s')
  {
    forall j: nat | s.low <= j < Current(s').upTo ensures NumberLaw(s', j) {
      assert NumberLaw(s, j);
    }
  }

  lemma FreesStay(s: State, s': State)
    requires IndexInv(s) && |s'.headers| > 0 && s'.entries == s.entries && s'.low == s.low
    requires Current(s').index == Current(s).index && Current(s').bias == Current(s).bias
    requires Current(s').upTo == Current(s).upTo
    ensures forall j: nat | Current(s').upTo <= j < s'.low + |Current(s').index| :: FreeAt(Current(s'), s'.entries, j)
  {
    forall j: nat | Current(s').upTo <= j < s'.low + |Current(s').index| ensures FreeAt(Current(s'), s'.entries, j) {
      assert FreeAt(Current(s), s.entries, j);
    }
  }

  lemma MoveTailKeepsIndex(s: State)
    requires IndexInv(s) && Enabled(s, MoveTail)
    ensures IndexInv(Apply(s, MoveTail))
  {
    var s', x := Apply(s, MoveTail), Current(s);
    CurrentFacts(s);
    SlotShift(x.bias, s.count - 1, 1, |x.index|);
    CurrentMoves(s, s', (x.tail + 1) % |x.index|, s.count);
    NumbersStay(s, s');
    FreesStay(s, s');
  }

  lemma RewindKeepsIndex(s: State)
    requires IndexInv(s) && Enabled(s, Rewind)
    ensures IndexInv(Apply(s, Rewind))
  {
    var s', x := Apply(s, Rewind), Current(s);
    CurrentFacts(s);
    SlotShift(x.bias, s.count, -1, |x.index|);
    CurrentMoves(s, s', (x.tail - 1) % |x.index|, s.count - 1);
    NumbersStay(s, s');
    FreesStay(s, s');
  }

  lemma StoreKeepsIndex(s: State, b: Block)
    requires IndexInv(s) && Enabled(s, Store(b))
    ensures IndexInv(Apply(s, Store(b)))
  {
    var s', x := Apply(s, Store(b)), Current(s);
    CurrentFacts(s);
    assert MapsTo(x, s.home, s.count) && NumberLaw(s, s.count);
    HeadersStay(s, s');
    OneNumberChanges(s, s', s.count);
    FreeStays(x, s.entries, s'.entries, s.count, s.low);
  }

  lemma NullKeepsIndex(s: State)
    requires IndexInv(s) && Enabled(s, Null)
    ensures IndexInv(Apply(s, Null))
  {
    var s', x := Apply(s, Null), Current(s);
    CurrentFacts(s);
    NextEntryIs(s);
    assert MapsTo(x, s.home, s.count) && NumberLaw(s, s.count);
    HeadersStay(s, s');
    OneNumberChanges(s, s', s.count);
    FreeStays(x, s.entries, s'.entries, s.count, s.low);
  }

  lemma QuietKeepsIndex(s: State, a: Action)
    requires IndexInv(s) && Enabled(s, a) && (a.Publish? || a.StartUndo? || a.EndUndo? || a.Claim? || a.GiveUp?)
    ensures IndexInv(Apply(s, a))
  {
    hide LookupSlot, FoundEntry, NextEntry, IsFree, HeaderLaw, NumberLaw, FreeAt;
    var s' := Apply(s, a);
    HeadersStay(s, s');
    NumbersStay(s, s');
    FreesStay(s, s');
  }

  lemma TestKeepsIndex(s: State)
    requires IndexInv(s) && Enabled(s, Test)
    ensures IndexInv(Apply(s, Test))
  {
    var s' := Apply(s, Test);
    if s'.producer == Full {
      GrowFull(s);
    }
    HeadersStay(s, s');
    NumbersStay(s, s');
    FreesStay(s, s');
  }

  lemma UndoRewindKeepsIndex(s: State)
    requires IndexInv(s) && Enabled(s, UndoRewind)
    ensures IndexInv(Apply(s, UndoRewind))
  {
    var s', x := Apply(s, UndoRewind), Current(s);
    CurrentFacts(s);
    SlotShift(x.bias, x.last, -1, |x.index|);
    CurrentMoves(s, s', (x.tail - 1) % |x.index|, x.last - 1);
    NumbersStay(s, s');
    FreesStay(s, s');
  }

  /** The producer finds the entries of a batch that it takes back, although the tail is already moving. */
  lemma FoundIsHome(s: State, q: nat)
    requires IndexInv(s) && s.producer.Undo? && s.low <= q < Current(s).upTo
    requires Published(s.tail) + s.producer.undone < s.count
    ensures HasIndex(s) && q in s.home && FoundEntry(s, q) == s.home[q]
  {
    CurrentFacts(s);
    var x := Current(s);
    var m: nat := x.last;
    assert MapsTo(x, s.home, m) && NumberLaw(s, m) && MapsTo(x, s.home, q);
    Within(q, m, |x.index|);
    LookupIsExact(x.bias, q, m, |x.index|);
  }

  lemma UndoNullKeepsIndex(s: State)
    requires IndexInv(s) && Enabled(s, UndoNull)
    ensures IndexInv(Apply(s, UndoNull))
  {
    var s', x, q := Apply(s, UndoNull), Current(s), Published(s.tail) + s.producer.undone;
    CurrentFacts(s);
    FoundIsHome(s, q);
    hide FoundEntry;
    assert MapsTo(x, s.home, q) && NumberLaw(s, q);
    HeadersStay(s, s');
    OneNumberChanges(s, s', q);
    FreeStays(x, s.entries, s'.entries, q, s.low);
  }

  // ---- Keying a new entry --------------------------------------------------------------

  /** Keying again the entry of a block number that was taken back changes nothing but the producer. */
  lemma KeyAgainKeepsIndex(s: State)
    requires IndexInv(s) && Enabled(s, Key) && s.count < Current(s).upTo
    ensures IndexInv(Apply(s, Key))
  {
    var s', x := Apply(s, Key), Current(s);
    CurrentFacts(s);
    KeyRoom(s);
    assert s'.entries == s.entries && s'.headers == s.headers;
    HeadersStay(s, s');
    NumbersStay(s, s');
    FreesStay(s, s');
  }

  /** The new block number joins the window, whose oldest may have to leave it. */
  lemma KeyNewNumbers(s: State)
    requires IndexInv(s) && Enabled(s, Key) && s.count == Current(s).upTo
    ensures NumbersLaw(Apply(s, Key))
  {
    var s', x, e := Apply(s, Key), Current(s), NextEntry(Current(s));
    CurrentFacts(s);
    KeyRoom(s);
    forall j: nat | s'.low <= j < s.count ensures j in s.home && s.home[j] != e && NumberLaw(s, j) && NumberLaw(s', j) {
      assert NumberLaw(s, j);
    }
  }

  lemma KeyNewHeaders(s: State)
    requires IndexInv(s) && Enabled(s, Key) && s.count == Current(s).upTo
    ensures HeadersLaw(Apply(s, Key))
  {
    var s', x := Apply(s, Key), Current(s);
    CurrentFacts(s);
    NextEntryIs(s);
    forall h | 0 <= h < |s'.headers| ensures HeaderLaw(s'.headers[h], |s'.entries|, s'.home, s'.low) && s'.headers[h].upTo <= Current(s').upTo {
      assert HeaderLaw(s.headers[h], |s.entries|, s.home, s.low);
      forall j: nat | s'.low <= j < s'.headers[h].upTo ensures MapsTo(s'.headers[h], s'.home, j) {
        if j < s.headers[h].upTo {
          assert MapsTo(s.headers[h], s.home, j);
        }
      }
    }
  }

  lemma KeyNewCurrent(s: State)
    requires IndexInv(s) && Enabled(s, Key) && s.count == Current(s).upTo
    ensures CurrentLaw(Apply(s, Key)) && DomainLaw(Apply(s, Key))
  {
    var s', x := Apply(s, Key), Current(s);
    CurrentFacts(s);
    NextEntryIs(s);
    KeyRoom(s);
    var x' := Current(s');
    forall j: nat | x'.upTo <= j < s'.low + |x'.index| ensures FreeAt(x', s'.entries, j) {
      assert FreeAt(x, s.entries, j);
      EntriesDiffer(x, s.entries, s.count, j);
    }
  }

  lemma KeyKeepsIndex(s: State)
    requires IndexInv(s) && Enabled(s, Key)
    ensures IndexInv(Apply(s, Key))
  {
    CurrentFacts(s);
    if s.count < Current(s).upTo {
      KeyAgainKeepsIndex(s);
    } else {
      KeyNewNumbers(s);
      KeyNewHeaders(s);
      KeyNewCurrent(s);
    }
  }

  // ---- Growth ------------------------------------------------------------------------

  lemma GrowDoubles(s: State, added: seq<Entry>)
    requires Enabled(s, Grow(added))
    ensures IsDoubled(Current(s).index, s.entries, Current(s).tail, Current(Apply(s, Grow(added))).index, Apply(s, Grow(added)).entries)
  {}

  /** As the source asserts, the entry that comes next after growing has never been keyed. */
  lemma GrownIsNew(s: State, added: seq<Entry>)
    requires IndexInv(s) && Enabled(s, Grow(added))
    ensures var s' := Apply(s, Grow(added)); var e := NextEntry(Current(s'));
            e == |s.entries| < |s'.entries| && s'.entries[e].key == INVALID_BLOCK_BASE
  {
    GrowShape(s, added);
    hide Apply, Enabled, IndexInv;
    RemainderIsUnique(|Current(s).index|, 0, |Current(s).index|, 2 * |Current(s).index|);
  }

  lemma GrowMaps(s: State, added: seq<Entry>, j: nat)
    requires IndexInv(s) && Enabled(s, Grow(added)) && s.low <= j < Current(s).upTo
    ensures MapsTo(Current(Apply(s, Grow(added))), s.home, j)
  {
    var x := Current(s);
    CurrentFacts(s);
    DoublingKeepsSlot(x.index, x.tail, x.bias, s.count, j);
    assert MapsTo(x, s.home, j);
  }

  lemma GrowCurrent(s: State, added: seq<Entry>)
    requires IndexInv(s) && Enabled(s, Grow(added))
    ensures var s', x := Apply(s, Grow(added)), Current(s); var x' := Current(s');
            && IsIndex(x'.index, s'.entries)
            && (forall j: nat | s.low <= j < x.upTo :: MapsTo(x', s.home, j))
            && (forall j: nat | x'.upTo <= j < s.low + |x'.index| :: FreeAt(x', s'.entries, j))
            && x'.tail == Slot(x'.bias, x'.last, |x'.index|)
  {
    var s', x := Apply(s, Grow(added)), Current(s);
    var x', n := Current(s'), |x.index|;
    CurrentFacts(s);
    GrowDoubles(s, added);
    DoublingIsIndex(x.index, s.entries, x.tail, x'.index, s'.entries);
    forall j: nat | s.low <= j < x.upTo ensures MapsTo(x', s.home, j) {
      GrowMaps(s, added, j);
    }
    hide IsDoubled;
    forall j: nat | x'.upTo <= j < s.low + 2 * n ensures FreeAt(x', s'.entries, j) {
      DoublingMakesRoom(x.index, s.entries, x.tail, s.count, x'.index, s'.entries, j);
    }
    RemainderIsUnique(n - 1, 0, n - 1, 2 * n);
  }

  /** What growing leaves as it was, and what it makes. */
  lemma GrowShape(s: State, added: seq<Entry>)
    requires Enabled(s, Grow(added))
    ensures var s', x, n := Apply(s, Grow(added)), Current(s), |Current(s).index|;
            && s' == s.(entries := s.entries + added, producer := Fit, headers := s.headers + [Current(s')])
            && |Current(s').index| == 2 * n && Current(s').tail == n - 1 && Current(s').bias == n - s.count
            && Current(s').last == s.count - 1 && Current(s').upTo == s.count
            && forall i | 0 <= i < 2 * n :: Current(s').index[i] == if i < n then x.index[(x.tail + 1 + i) % n] else |s.entries| + i - n
  {}

  lemma GrowHeaders(s: State, added: seq<Entry>)
    requires IndexInv(s) && Enabled(s, Grow(added))
    ensures HeadersLaw(Apply(s, Grow(added)))
  {
    var s', x := Apply(s, Grow(added)), Current(s);
    CurrentFacts(s);
    GrowCurrent(s, added);
    GrowShape(s, added);
    hide Apply, Enabled, NumbersLaw, DomainLaw, FreeAt, Slot;
    assert Current(s') == s'.headers[|s.headers|] && s'.headers[..|s.headers|] == s.headers;
    forall h | 0 <= h < |s'.headers| ensures HeaderLaw(s'.headers[h], |s'.entries|, s'.home, s'.low) && s'.headers[h].upTo <= Current(s').upTo {
      if h < |s.headers| {
        assert s'.headers[h] == s.headers[h];
        HeaderGrows(s.headers[h], |s.entries|, |s'.entries|, s.home, s.low);
      }
    }
  }

  lemma HeaderGrows(x: Header, count: nat, count': nat, home: map<nat, nat>, low: nat)
    requires HeaderLaw(x, count, home, low) && count <= count'
    ensures HeaderLaw(x, count', home, low)
  {}

  lemma GrowNumbers(s: State, added: seq<Entry>)
    requires IndexInv(s) && Enabled(s, Grow(added))
    ensures NumbersLaw(Apply(s, Grow(added)))
  {
    var s' := Apply(s, Grow(added));
    GrowShape(s, added);
    hide Apply, Enabled, HeadersLaw, DomainLaw, CurrentLaw;
    forall j: nat | s.low <= j < Current(s').upTo ensures NumberLaw(s', j) {
      assert NumberLaw(s, j);
    }
  }

  lemma GrowKeepsIndex(s: State, added: seq<Entry>)
    requires IndexInv(s) && Enabled(s, Grow(added))
    ensures IndexInv(Apply(s, Grow(added)))
  {
    var s' := Apply(s, Grow(added));
    CurrentFacts(s);
    GrowHeaders(s, added);
    GrowNumbers(s, added);
    GrowCurrent(s, added);
    GrowShape(s, added);
    hide Apply, Enabled, HeadersLaw, NumbersLaw, IsIndex;
    var x' := Current(s');
    assert x'.tail + 1 == |Current(s).index| < |x'.index|;
    RemainderIsUnique(x'.tail + 1, 0, x'.tail + 1, |x'.index|);
    assert NextEntry(x') == |s.entries|;
  }

  /** A consumer takes the block it has emptied out of the index, through whatever header it has. */
  lemma ClearKeepsIndex(s: State, t: nat)
    requires IndexInv(s) && Enabled(s, Consume(t)) && s.consumers[t].Clear?
    requires var Clear(_, _, h, slot, q, _) := s.consumers[t];
             q in s.blocks && q < Published(s.tail) && q < s.headers[h].upTo && |s.headers[h].index| > 0 && slot == Slot(s.headers[h].bias, q, |s.headers[h].index|)
    ensures IndexInv(Apply(s, Consume(t)))
  {
    var Clear(_, _, h, slot, q, _) := s.consumers[t];
    var s', x := Apply(s, Consume(t)), Current(s);
    CurrentFacts(s);
    assert HeaderLaw(s.headers[h], |s.entries|, s.home, s.low) && MapsTo(s.headers[h], s.home, q);
    assert MapsTo(x, s.home, q) && NumberLaw(s, q);
    hide HeaderLaw, IsShaped, BlockBase, LookupSlot, PartEnd;
    HeadersStay(s, s');
    OneNumberChanges(s, s', q);
    FreeStays(x, s.entries, s'.entries, q, s.low);
  }

  /** Any header that has the block number maps it to the entry with its key and its block. */
  lemma StaleFinds(s: State, h: nat, q: nat)
    requires IndexInv(s) && h < |s.headers| && q in s.blocks && q < s.headers[h].upTo
    ensures |s.headers[h].index| > 0 && EntryIn(s.headers[h], q) < |s.entries|
    ensures s.entries[EntryIn(s.headers[h], q)] == Entry(Wrap(q * BLOCK_SIZE), Some(s.blocks[q]))
  {
    assert HeaderLaw(s.headers[h], |s.entries|, s.home, s.low) && MapsTo(s.headers[h], s.home, q) && NumberLaw(s, q);
  }
}
