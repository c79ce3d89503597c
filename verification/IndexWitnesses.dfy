/** Runs of the lookup machine that show what its theorems leave out, and why: a bulk dequeue of at most zero
    elements, and the index tail after a rollback. */
module IndexWitnesses {
  import opened Options
  import opened Wraparound
  import opened IndexRing
  import opened ImplicitLookup
  import opened ImplicitReaders
  import opened ImplicitRuns

  const SLOTS: nat := 32

  /** The machine comes to state s by a run in which every call asks for at least `least` elements. */
  ghost predicate Reached(s: State, least: nat) {
    exists run, actions :: IsRun(run, actions) && AtLeast(actions, least) && run[|actions|] == s
  }

  lemma OneMore(s: State, a: Action, least: nat)
    requires Reached(s, least) && Enabled(s, a) && (a.Claim? ==> a.k >= least)
    ensures Reached(Apply(s, a), least)
  {
    hide Apply, Enabled, Init;
    var run, actions :| IsRun(run, actions) && AtLeast(actions, least) && run[|actions|] == s;
    var run', actions' := run + [Apply(s, a)], actions + [a];
    assert IsRun(run', actions') && AtLeast(actions', least) && run'[|actions'|] == Apply(s, a);
  }

  // ---- A queue of one full block and two consumers -----------------------------------------

  /** The index with its first slot keyed for block number 0 once that has been started. */
  function FirstHeader(keyed: bool, moved: bool): Header {
    Header(seq(SLOTS, i requires 0 <= i < SLOTS => i), if moved then 0 else SLOTS - 1, 0, if moved then 0 else -1,
           if keyed then 1 else 0)
  }

  function FirstEntries(keyed: bool, value: Option<Block>): seq<Entry> {
    seq(SLOTS, i requires 0 <= i < SLOTS => if i == 0 then Entry(if keyed then 0 else INVALID_BLOCK_BASE, value)
                                            else Entry(INVALID_BLOCK_BASE, None))
  }

  /** Nothing has been inserted; `producer` is what is being done about block number 0. */
  function Starting(producer: Producer, keyed: bool, moved: bool, consumers: seq<Consumer>): State {
    State([FirstHeader(keyed, moved)], FirstEntries(keyed, None), 0, 0, 0, map[], map[], {0}, {}, producer, consumers,
          if keyed then map[0 := 0] else map[], 0)
  }

  /** Block 0 is in, with `tail` elements, of which `head` are claimed and `done` counted; `gone` if it has
      left the index again. */
  function Holding(tail: nat, head: nat, done: nat, gone: bool, free: set<Block>, consumers: seq<Consumer>): State {
    State([FirstHeader(true, true)], FirstEntries(true, if gone then None else Some(0)), tail, head, 1,
          if gone then map[] else map[0 := 0], map[0 := done], free, {}, Ready, consumers, map[0 := 0], 0)
  }

  lemma SlotZero()
    ensures Wrap(0) == 0 && BlockBase(Wrap(0)) == 0 && LookupSlot(0, 0, BlockBase(Wrap(0)), SLOTS) == 0
  {}

  lemma StartIsReached(consumers: seq<Consumer>, least: nat)
    requires forall t | 0 <= t < |consumers| :: consumers[t] == Idle
    ensures Reached(Starting(Ready, false, false, consumers), least)
  {
    var s := Starting(Ready, false, false, consumers);
    assert IsRun([s], []) && AtLeast([], least);
  }

  lemma TestFirst(c: seq<Consumer>)
    ensures Enabled(Starting(Ready, false, false, c), Test)
    ensures Apply(Starting(Ready, false, false, c), Test) == Starting(Fit, false, false, c)
  {
    assert NextEntry(FirstHeader(false, false)) == 0;
  }

  lemma KeyFirst(c: seq<Consumer>)
    ensures Enabled(Starting(Fit, false, false, c), Key)
    ensures Apply(Starting(Fit, false, false, c), Key) == Starting(Keyed, true, false, c)
  {
    SlotZero();
    var s := Starting(Fit, false, false, c);
    var x := FirstHeader(false, false);
    assert NextEntry(x) == 0;
    assert s.entries[0 := s.entries[0].(key := Wrap(0 * BLOCK_SIZE))] == FirstEntries(true, None);
    assert s.headers[0 := x.(upTo := 1)] == [FirstHeader(true, false)];
    assert s.home[0 := 0] == map[0 := 0];
    hide Wrap;
  }

  lemma MoveToFirst(c: seq<Consumer>)
    ensures Enabled(Starting(Keyed, true, false, c), MoveTail)
    ensures Apply(Starting(Keyed, true, false, c), MoveTail) == Starting(Claimed, true, true, c)
  {
    assert Apply(Starting(Keyed, true, false, c), MoveTail).headers == [FirstHeader(true, true)];
  }

  lemma StoreFirst(c: seq<Consumer>)
    ensures Enabled(Starting(Claimed, true, true, c), Store(0))
    ensures Apply(Starting(Claimed, true, true, c), Store(0)) == Holding(0, 0, 0, false, {}, c)
  {
    assert FirstEntries(true, Some(0)) == FirstEntries(true, None)[0 := Entry(0, Some(0))];
  }

  lemma KeyedIsReached(c: seq<Consumer>, least: nat)
    requires forall t | 0 <= t < |c| :: c[t] == Idle
    ensures Reached(Starting(Claimed, true, true, c), least)
  {
    hide Reached, Starting, Enabled, Apply;
    StartIsReached(c, least);
    TestFirst(c);
    KeyFirst(c);
    OneMore(Starting(Ready, false, false, c), Test, least);
    OneMore(Starting(Fit, false, false, c), Key, least);
    MoveToFirst(c);
    OneMore(Starting(Keyed, true, false, c), MoveTail, least);
  }

  lemma FullIsReached(c: seq<Consumer>, least: nat)
    requires forall t | 0 <= t < |c| :: c[t] == Idle
    ensures Reached(Holding(BLOCK_SIZE, 0, 0, false, {}, c), least)
  {
    KeyedIsReached(c, least);
    StoreFirst(c);
    hide Reached;
    OneMore(Starting(Claimed, true, true, c), Store(0), least);
    OneMore(Holding(0, 0, 0, false, {}, c), Publish(BLOCK_SIZE), least);
    assert Apply(Holding(0, 0, 0, false, {}, c), Publish(BLOCK_SIZE)) == Holding(BLOCK_SIZE, 0, 0, false, {}, c);
  }

  // ---- Consumer t of the two ---------------------------------------------------------------

  function Two(t: nat, c: Consumer, other: Consumer): seq<Consumer> { if t == 0 then [c, other] else [other, c] }

  lemma Looks(t: nat, stop: nat, other: Consumer, head: nat, done: nat, gone: bool, free: set<Block>, least: nat)
    requires t < 2 && Reached(Holding(BLOCK_SIZE, head, done, gone, free, Two(t, LoadHeader(0, stop), other)), least)
    ensures Reached(Holding(BLOCK_SIZE, head, done, gone, free, Two(t, LoadValue(0, stop, 0, 0), other)), least)
  {
    hide Reached, Wrap, LookupSlot, BlockBase;
    SlotZero();
    var s := Holding(BLOCK_SIZE, head, done, gone, free, Two(t, LoadHeader(0, stop), other));
    OneMore(s, Consume(t), least);
    var s1 := s.(consumers := Two(t, LoadTail(0, stop, 0), other));
    assert Step(s, t) == s1;
    OneMore(s1, Consume(t), least);
    var s2 := s.(consumers := Two(t, LoadKey(0, stop, 0, 0, 0), other));
    assert Step(s1, t) == s2;
    OneMore(s2, Consume(t), least);
    assert Step(s2, t) == s.(consumers := Two(t, LoadValue(0, stop, 0, 0), other));
  }

  /** The block is there: a call that has claimed the elements reads them, one that has claimed none goes on
      to count none. */
  lemma Finds(t: nat, stop: nat, other: Consumer, head: nat, done: nat, free: set<Block>, least: nat)
    requires t < 2
    requires Reached(Holding(BLOCK_SIZE, head, done, false, free, Two(t, LoadValue(0, stop, 0, 0), other)), least)
    ensures var c := if stop == 0 then Count(0, 0, 0, 0, 0, 0) else Read(0, stop, 0, 0, 0, 0);
            Reached(Holding(BLOCK_SIZE, head, done, false, free, Two(t, c, other)), least)
  {
    hide Reached;
    var s := Holding(BLOCK_SIZE, head, done, false, free, Two(t, LoadValue(0, stop, 0, 0), other));
    OneMore(s, Consume(t), least);
    assert Step(s, t) == s.(consumers := Two(t, if stop == 0 then Count(0, 0, 0, 0, 0, 0) else Read(0, stop, 0, 0, 0, 0), other));
  }

  lemma {:induction false} ReadsOn(t: nat, next: nat, other: Consumer, free: set<Block>, least: nat)
    requires t < 2 && next < BLOCK_SIZE
    requires Reached(Holding(BLOCK_SIZE, BLOCK_SIZE, 0, false, free, Two(t, Read(next, BLOCK_SIZE, 0, 0, 0, 0), other)), least)
    ensures Reached(Holding(BLOCK_SIZE, BLOCK_SIZE, 0, false, free, Two(t, Count(BLOCK_SIZE, BLOCK_SIZE, 0, 0, 0, 0), other)), least)
    decreases BLOCK_SIZE - next
  {
    hide Reached;
    var s := Holding(BLOCK_SIZE, BLOCK_SIZE, 0, false, free, Two(t, Read(next, BLOCK_SIZE, 0, 0, 0, 0), other));
    OneMore(s, Consume(t), least);
    if next + 1 < BLOCK_SIZE {
      assert Step(s, t) == s.(consumers := Two(t, Read(next + 1, BLOCK_SIZE, 0, 0, 0, 0), other));
      ReadsOn(t, next + 1, other, free, least);
    } else {
      assert Step(s, t) == s.(consumers := Two(t, Count(BLOCK_SIZE, BLOCK_SIZE, 0, 0, 0, 0), other));
    }
  }

  /** Counting the last elements, or none of a block that is full of read ones, sets about taking it out. */
  lemma Counts(t: nat, next: nat, done: nat, other: Consumer, free: set<Block>, least: nat)
    requires t < 2 && done + next == BLOCK_SIZE
    requires Reached(Holding(BLOCK_SIZE, BLOCK_SIZE, done, false, free, Two(t, Count(next, next, 0, 0, 0, 0), other)), least)
    ensures Reached(Holding(BLOCK_SIZE, BLOCK_SIZE, BLOCK_SIZE, false, free, Two(t, Clear(next, next, 0, 0, 0, 0), other)), least)
  {
    hide Reached;
    var s := Holding(BLOCK_SIZE, BLOCK_SIZE, done, false, free, Two(t, Count(next, next, 0, 0, 0, 0), other));
    OneMore(s, Consume(t), least);
    assert map[0 := done][0 := BLOCK_SIZE] == map[0 := BLOCK_SIZE];
    assert Step(s, t) == Holding(BLOCK_SIZE, BLOCK_SIZE, BLOCK_SIZE, false, free, Two(t, Clear(next, next, 0, 0, 0, 0), other));
  }

  lemma Clears(t: nat, next: nat, gone: bool, other: Consumer, free: set<Block>, least: nat)
    requires t < 2
    requires Reached(Holding(BLOCK_SIZE, BLOCK_SIZE, BLOCK_SIZE, gone, free, Two(t, Clear(next, next, 0, 0, 0, 0), other)), least)
    ensures Reached(Holding(BLOCK_SIZE, BLOCK_SIZE, BLOCK_SIZE, true, free, Two(t, Release(next, next, 0, 0, 0), other)), least)
  {
    hide Reached;
    var s := Holding(BLOCK_SIZE, BLOCK_SIZE, BLOCK_SIZE, gone, free, Two(t, Clear(next, next, 0, 0, 0, 0), other));
    OneMore(s, Consume(t), least);
    assert s.entries[0 := s.entries[0].(value := None)] == FirstEntries(true, None);
    assert s.blocks - {0} == map[];
    assert Step(s, t) == Holding(BLOCK_SIZE, BLOCK_SIZE, BLOCK_SIZE, true, free, Two(t, Release(next, next, 0, 0, 0), other));
  }

  // ---- A bulk dequeue of at most zero elements ---------------------------------------------

  /** Both calls are under way, the one that wants nothing having gone as far as `other`. */
  lemma BothClaim(least: nat)
    requires least == 0
    ensures Reached(Holding(BLOCK_SIZE, 0, 0, false, {}, Two(1, LoadHeader(0, 0), Idle)), least)
  {
    FullIsReached([Idle, Idle], least);
    hide Reached;
    var s := Holding(BLOCK_SIZE, 0, 0, false, {}, [Idle, Idle]);
    OneMore(s, Claim(1, 0), least);
    assert Apply(s, Claim(1, 0)) == s.(consumers := Two(1, LoadHeader(0, 0), Idle));
  }

  lemma ClaimAll(other: Consumer, least: nat)
    requires least == 0 && Reached(Holding(BLOCK_SIZE, 0, 0, false, {}, Two(0, Idle, other)), least)
    ensures Reached(Holding(BLOCK_SIZE, BLOCK_SIZE, 0, false, {}, Two(0, Count(BLOCK_SIZE, BLOCK_SIZE, 0, 0, 0, 0), other)), least)
  {
    hide Reached;
    var s := Holding(BLOCK_SIZE, 0, 0, false, {}, Two(0, Idle, other));
    OneMore(s, Claim(0, BLOCK_SIZE), least);
    assert Apply(s, Claim(0, BLOCK_SIZE)) == Holding(BLOCK_SIZE, BLOCK_SIZE, 0, false, {}, Two(0, LoadHeader(0, BLOCK_SIZE), other));
    Looks(0, BLOCK_SIZE, other, BLOCK_SIZE, 0, false, {}, least);
    Finds(0, BLOCK_SIZE, other, BLOCK_SIZE, 0, {}, least);
    ReadsOn(0, 0, other, {}, least);
  }

  /** The call that wants nothing looks the block up after it has gone: it finds a null pointer where it is
      about to count. */
  lemma MeetsNull() returns (s: State)
    ensures Reached(s, 0) && |s.consumers| == 2 && s.consumers[1].LoadValue? && !Enabled(s, Consume(1))
  {
    hide Reached, Holding;
    var d := LoadHeader(0, 0);
    BothClaim(0);
    assert Two(0, Idle, d) == Two(1, d, Idle);
    ClaimAll(d, 0);
    Counts(0, BLOCK_SIZE, 0, d, {}, 0);
    Clears(0, BLOCK_SIZE, false, d, {}, 0);
    var c := Release(BLOCK_SIZE, BLOCK_SIZE, 0, 0, 0);
    assert Two(0, c, d) == Two(1, d, c);
    Looks(1, 0, c, BLOCK_SIZE, BLOCK_SIZE, true, {}, 0);
    s := Holding(BLOCK_SIZE, BLOCK_SIZE, BLOCK_SIZE, true, {}, Two(1, LoadValue(0, 0, 0, 0), c));
    FindsNull(c);
  }

  lemma FindsNull(other: Consumer)
    ensures var s := Holding(BLOCK_SIZE, BLOCK_SIZE, BLOCK_SIZE, true, {}, Two(1, LoadValue(0, 0, 0, 0), other));
            |s.consumers| == 2 && s.consumers[1] == LoadValue(0, 0, 0, 0) && !Enabled(s, Consume(1))
  {}

  /** It has looked the block up before, and counts nothing after the last element has been counted: the block
      is full of read elements for it too, and it puts it on the free list a second time. */
  lemma ReleasesAgain() returns (s: State)
    ensures Reached(s, 0) && |s.consumers| == 2 && s.consumers[1].Release? && s.consumers[1].block in s.free
  {
    hide Reached, Holding;
    var d := Count(0, 0, 0, 0, 0, 0);
    BothClaim(0);
    Looks(1, 0, Idle, 0, 0, false, {}, 0);
    Finds(1, 0, Idle, 0, 0, {}, 0);
    assert Two(0, Idle, d) == Two(1, d, Idle);
    ClaimAll(d, 0);
    Counts(0, BLOCK_SIZE, 0, d, {}, 0);
    var c := Clear(BLOCK_SIZE, BLOCK_SIZE, 0, 0, 0, 0);
    assert Two(0, c, d) == Two(1, d, c);
    Counts(1, 0, BLOCK_SIZE, c, {}, 0);
    var d' := Clear(0, 0, 0, 0, 0, 0);
    assert Two(1, d', c) == Two(0, c, d');
    Clears(0, BLOCK_SIZE, false, d', {}, 0);
    var c' := Release(BLOCK_SIZE, BLOCK_SIZE, 0, 0, 0);
    assert Two(0, c', d') == Two(1, d', c');
    Clears(1, 0, true, c', {}, 0);
    s := PutsBack(0);
  }

  lemma PutsBack(least: nat) returns (s: State)
    requires Reached(Holding(BLOCK_SIZE, BLOCK_SIZE, BLOCK_SIZE, true, {}, Two(1, Release(0, 0, 0, 0, 0), Release(BLOCK_SIZE, BLOCK_SIZE, 0, 0, 0))), least)
    ensures Reached(s, least) && |s.consumers| == 2 && s.consumers[1].Release? && s.consumers[1].block in s.free
  {
    hide Reached;
    var last := Holding(BLOCK_SIZE, BLOCK_SIZE, BLOCK_SIZE, true, {}, Two(1, Release(0, 0, 0, 0, 0), Release(BLOCK_SIZE, BLOCK_SIZE, 0, 0, 0)));
    OneMore(last, Consume(0), least);
    s := Step(last, 0);
  }

  /** So consumers go on for ever, and no block is ever in two places, exactly if no call asks for zero
      elements. */
  lemma SafeIffAsking(least: nat)
    ensures (forall s, t: nat | Reached(s, least) && t < |s.consumers| :: Enabled(s, Consume(t))) <==> least > 0
    ensures (forall s | Reached(s, least) :: OwnerLaw(s)) <==> least > 0
  {
    if least > 0 {
      forall s | Reached(s, least) ensures OwnerLaw(s) && forall t: nat | t < |s.consumers| :: Enabled(s, Consume(t)) {
        ReachedIsSafe(s, least);
      }
    } else {
      var s := MeetsNull();
      var s' := ReleasesAgain();
      assert Reached(s, least) && !Enabled(s, Consume(1));
      assert Reached(s', least) && !HandLaw(s', s'.consumers[1]);
    }
  }

  lemma ReachedIsSafe(s: State, least: nat)
    requires Reached(s, least) && least > 0
    ensures OwnerLaw(s) && forall t: nat | t < |s.consumers| :: Enabled(s, Consume(t))
  {
    var run, actions :| IsRun(run, actions) && AtLeast(actions, least) && run[|actions|] == s;
    BlocksAreConserved(run, actions, |actions|);
    forall t: nat | t < |s.consumers| ensures Enabled(s, Consume(t)) {
      ConsumersGoOn(run, actions, |actions|, t);
    }
  }

  // ---- A rollback ----------------------------------------------------------------------------

  /** The first batch of all has inserted block 0 and takes it back, as far as `producer` says. */
  function TakingBack(producer: Producer, emptied: bool, rewound: bool): State {
    var x := FirstHeader(true, true);
    State([if rewound then x.(tail := SLOTS - 1, last := -1) else x],
          FirstEntries(true, if emptied then None else Some(0)),
          0, 0, 1, if emptied then map[] else map[0 := 0], map[0 := 0], {}, if emptied then {0} else {}, producer, [],
          map[0 := 0], 0)
  }

  lemma BatchIsReached(least: nat)
    ensures Reached(TakingBack(Undo(0), false, false), least)
  {
    KeyedIsReached([], least);
    StoreFirst([]);
    hide Reached;
    OneMore(Starting(Claimed, true, true, []), Store(0), least);
    OneMore(Holding(0, 0, 0, false, {}, []), StartUndo, least);
    assert Apply(Holding(0, 0, 0, false, {}, []), StartUndo) == TakingBack(Undo(0), false, false);
  }

  lemma EmptiesFirst()
    ensures Enabled(TakingBack(Undo(0), false, false), UndoNull)
    ensures Apply(TakingBack(Undo(0), false, false), UndoNull) == TakingBack(UndoTail(0), true, false)
  {
    SlotZero();
    var s := TakingBack(Undo(0), false, false);
    assert FoundEntry(s, 0) == 0;
    assert s.entries[0 := s.entries[0].(value := None)] == FirstEntries(true, None);
    assert s.blocks - {0} == map[];
  }

  lemma RewindsFirst()
    ensures Enabled(TakingBack(UndoTail(0), true, false), UndoRewind)
    ensures Apply(TakingBack(UndoTail(0), true, false), UndoRewind) == TakingBack(Undo(1), true, true)
  {}

  lemma RewoundIsReached(least: nat)
    ensures Reached(TakingBack(Undo(1), true, true), least)
  {
    BatchIsReached(least);
    EmptiesFirst();
    RewindsFirst();
    hide Reached, TakingBack, Enabled, Apply;
    OneMore(TakingBack(Undo(0), false, false), UndoNull, least);
    OneMore(TakingBack(UndoTail(0), true, false), UndoRewind, least);
  }

  /** After a bulk enqueue has been rolled back the slot at the index tail can have the invalid key, with the
      index in use: the key that a lookup asserts is valid. */
  lemma RollbackLeavesInvalidKey(least: nat) returns (s: State)
    ensures Reached(s, least) && HasIndex(s) && s.producer == Ready && Current(s).upTo > 0
    ensures s.entries[Current(s).index[Current(s).tail]].key == INVALID_BLOCK_BASE
  {
    hide Reached;
    RewoundIsReached(least);
    var s1 := TakingBack(Undo(1), true, true);
    OneMore(s1, EndUndo, least);
    s := Apply(s1, EndUndo);
  }
}
