/** What calls on an implicit producer come to in the lookup machine: consumers and producer finish what they have
    begun, and no block is kept once it has been read. */
module ImplicitCalls {
  import opened Claims
  import opened Counting
  import opened IndexRing
  import opened Wraparound
  import opened ImplicitLookup
  import opened ImplicitReaders
  import opened ImplicitRuns

  /** The actions can be performed one after the other and lead from s to s'. */
  ghost predicate Leads(s: State, actions: seq<Action>, s': State)
    decreases |actions|
  {
    if actions == [] then s' == s
    else Enabled(s, actions[0]) && Leads(Apply(s, actions[0]), actions[1..], s')
  }

  lemma {:induction false} LeadsOn(s: State, actions: seq<Action>, s1: State, more: seq<Action>, s2: State)
    requires Leads(s, actions, s1) && Leads(s1, more, s2)
    ensures Leads(s, actions + more, s2)
    decreases |actions|
  {
    hide Enabled, Apply;
    if actions == [] {
      assert actions + more == more;
    } else {
      assert (actions + more)[1..] == actions[1..] + more;
      LeadsOn(Apply(s, actions[0]), actions[1..], s1, more, s2);
    }
  }

  lemma LeadsByOne(s: State, a: Action)
    requires Enabled(s, a)
    ensures Leads(s, [a], Apply(s, a))
  {
    assert [a][1..] == [];
  }

  // ---- Consumers ---------------------------------------------------------------------

  ghost predicate AllIdle(s: State) { forall t | 0 <= t < |s.consumers| :: s.consumers[t] == Idle }

  /** With no consumer in a call exactly those of the blocks with published elements are in the index that have an
      element not yet claimed: every other has gone back. */
  lemma NothingKept(run: seq<State>, actions: seq<Action>, i: nat, q: nat)
    requires IsRun(run, actions) && AtLeast(actions, 1) && i < |run| && AllIdle(run[i]) && q < Published(run[i].tail)
    ensures q in run[i].blocks <==> run[i].head < (q + 1) * BLOCK_SIZE
  {
    RunKeepsInv(run, actions, i);
    var s := run[i];
    assert CountLaw(s, q);
    SumZero(s.consumers, PendingWeight(q));
    SumZero(s.consumers, ClearWeight(q));
  }

  /** The stages of a consumer between two blocks, and within one. */
  function Stage(c: Consumer): nat {
    match c
    case Idle => 0
    case Count(_, _, _, _, _, _) => 1
    case Read(_, _, _, _, _, _) => 2
    case LoadValue(_, _, _, _) => 3
    case LoadKey(_, _, _, _, _) => 4
    case LoadTail(_, _, _) => 5
    case LoadHeader(_, _) => 6
    case Release(_, _, _, _, _) => 7
    case Clear(_, _, _, _, _, _) => 8
  }

  /** Elements of blocks not yet counted. */
  function Uncounted(c: Consumer): int { Stop(c) - From(c) }

  function Unread(c: Consumer): int { if c.Read? then c.stop - c.next else 0 }

  lemma ConsumerComesNearer(s: State, t: nat)
    requires Inv(s) && t < |s.consumers| && s.consumers[t] != Idle && Enabled(s, Consume(t))
    ensures var c, c' := s.consumers[t], Step(s, t).consumers[t];
            && Uncounted(c) >= 0 && Unread(c) >= 0 && Uncounted(c') >= 0 && Unread(c') >= 0
            && (|| Uncounted(c') < Uncounted(c) || (Uncounted(c') == Uncounted(c) && Stage(c') < Stage(c))
                || (Uncounted(c') == Uncounted(c) && Stage(c') == Stage(c) && Unread(c') < Unread(c)))
  {
    hide LookupSlot, BlockBase, IndexInv, CountsLaw, OwnerLaw;
    var c := s.consumers[t];
    assert LocalLaw(s, c);
    if c.Read? || c.Count? || (c.LoadValue? && c.next < c.stop) {
      PartIs(if c.LoadValue? then c.next else c.from, c.stop, 0);
    }
  }

  lemma {:induction false} ConsumerFinishes(s: State, t: nat) returns (actions: seq<Action>, s': State)
    requires Inv(s) && t < |s.consumers|
    requires Uncounted(s.consumers[t]) >= 0 && Unread(s.consumers[t]) >= 0
    ensures Leads(s, actions, s') && (forall k | 0 <= k < |actions| :: actions[k] == Consume(t))
    ensures t < |s'.consumers| && s'.consumers[t] == Idle && Inv(s')
    decreases Uncounted(s.consumers[t]), Stage(s.consumers[t]), Unread(s.consumers[t])
  {
    hide Inv, Enabled, Apply, Step, Uncounted, Unread, Stage;
    if s.consumers[t] == Idle {
      actions, s' := [], s;
    } else {
      GoesOn(s, t);
      ConsumerComesNearer(s, t);
      ApplyKeepsInv(s, Consume(t));
      ConsumeMoves(s, t);
      actions, s' := ConsumerFinishes(Apply(s, Consume(t)), t);
      LeadsByOne(s, Consume(t));
      LeadsOn(s, [Consume(t)], Apply(s, Consume(t)), actions, s');
      actions := [Consume(t)] + actions;
    }
  }

  /** A consumer that is left alone, wherever it is, comes to the end of its call. */
  lemma ConsumerReturns(run: seq<State>, actions: seq<Action>, i: nat, t: nat) returns (own: seq<Action>, s': State)
    requires IsRun(run, actions) && AtLeast(actions, 1) && i < |run| && t < |run[i].consumers|
    ensures Leads(run[i], own, s') && (forall k | 0 <= k < |own| :: own[k] == Consume(t))
    ensures t < |s'.consumers| && s'.consumers[t] == Idle
  {
    RunKeepsInv(run, actions, i);
    Measured(run[i], t);
    own, s' := ConsumerFinishes(run[i], t);
  }

  lemma Measured(s: State, t: nat)
    requires Inv(s) && t < |s.consumers|
    ensures Uncounted(s.consumers[t]) >= 0 && Unread(s.consumers[t]) >= 0
  {
    var c := s.consumers[t];
    assert LocalLaw(s, c);
    if c.Read? || c.Count? {
      PartIs(c.from, c.stop, 0);
    }
  }

  // ---- The producer ------------------------------------------------------------------

  /** The block is in the index under the next number, and nothing else has changed for consumers. */
  ghost predicate Inserted(s: State, s': State, b: Block) {
    && s'.producer == Ready && s'.count == s.count + 1 && s'.blocks == s.blocks[s.count := b] && s'.free == s.free - {b}
    && s'.tail == s.tail && s'.head == s.head && s'.consumers == s.consumers
  }

  lemma KeyMoveStore(s: State, b: Block) returns (s': State)
    requires Inv(s) && HasIndex(s) && s.producer == Fit && b in s.free
    ensures Leads(s, [Key, MoveTail, Store(b)], s') && Inserted(s, s', b)
  {
    hide Inv;
    var s1 := Apply(s, Key);
    var s2 := Apply(s1, MoveTail);
    s' := Apply(s2, Store(b));
    assert [Key, MoveTail, Store(b)][1..] == [MoveTail, Store(b)] && [MoveTail, Store(b)][1..] == [Store(b)];
    LeadsByOne(s2, Store(b));
  }

  /** A producer that is left alone at a block start, with a block to be had, gets it into the index: at the next
      entry, if that is free, and in an index of twice the size otherwise. */
  lemma InsertsAlone(run: seq<State>, actions: seq<Action>, i: nat, b: Block, added: seq<Entry>)
    returns (own: seq<Action>, s': State)
    requires IsRun(run, actions) && AtLeast(actions, 1) && i < |run| && run[i].producer == Ready && b in run[i].free
    requires |run[i].headers| > 0 && |Current(run[i]).index| == |added| > 0
    requires forall e | 0 <= e < |added| :: added[e].key == INVALID_BLOCK_BASE
    requires INDEX_RANGE % (2 * |added|) == 0 && 2 * |added| * BLOCK_SIZE <= HALF
    ensures Leads(run[i], own, s') && Inserted(run[i], s', b)
    ensures HasIndex(run[i]) && own == (if IsFree(run[i].entries[NextEntry(Current(run[i]))]) then [Test] else [Test, Grow(added)]) + [Key, MoveTail, Store(b)]
  {
    var s := run[i];
    RunKeepsInv(run, actions, i);
    CurrentFacts(s);
    var s1 := Apply(s, Test);
    ApplyKeepsInv(s, Test);
    LeadsByOne(s, Test);
    own := [Test];
    if s1.producer == Full {
      var s2 := Apply(s1, Grow(added));
      ApplyKeepsInv(s1, Grow(added));
      LeadsByOne(s1, Grow(added));
      LeadsOn(s, own, s1, [Grow(added)], s2);
      s1, own := s2, [Test, Grow(added)];
    }
    CurrentFacts(s1);
    s' := KeyMoveStore(s1, b);
    LeadsOn(s, own, s1, [Key, MoveTail, Store(b)], s');
    own := own + [Key, MoveTail, Store(b)];
  }

  /** Blocks [from, count) have left the index for the free list. */
  ghost predicate TakenBack(s: State, from: nat, s': State) {
    && s'.producer == Ready && s'.count == Published(s.tail) && s'.spare == {}
    && (forall q :: q in s'.blocks <==> q in s.blocks && q < from) && (forall q | q in s'.blocks :: s'.blocks[q] == s.blocks[q])
    && (forall b :: b in s'.free <==> b in s.free || b in s.spare || exists q | from <= q < s.count :: q in s.blocks && s.blocks[q] == b)
    && s'.tail == s.tail && s'.head == s.head && s'.consumers == s.consumers
  }

  /** The first block still to be taken back has been, and its entry emptied. */
  ghost predicate OneTakenBack(s: State, s': State)
    requires s.producer.Undo?
  {
    var q := Published(s.tail) + s.producer.undone;
    && q in s.blocks && s'.blocks == s.blocks - {q} && s'.spare == s.spare + {s.blocks[q]} && s'.free == s.free
    && s'.count == s.count && s'.tail == s.tail && s'.head == s.head && s'.consumers == s.consumers
  }

  lemma NullIsEnabled(s: State)
    requires Inv(s) && s.producer.Undo? && Published(s.tail) + s.producer.undone < s.count
    ensures Enabled(s, UndoNull)
  {
    hide CountsLaw, LocalsLaw, OwnerLaw;
    var q := Published(s.tail) + s.producer.undone;
    CurrentFacts(s);
    assert DomainLaw(s);
    FoundIsHome(s, q);
    assert NumberLaw(s, q);
  }

  lemma NullTakesBack(s: State)
    requires Enabled(s, UndoNull)
    ensures OneTakenBack(s, Apply(s, UndoNull)) && Apply(s, UndoNull).producer == UndoTail(s.producer.undone)
  {
    hide FoundEntry;
  }

  lemma RewindGoesOn(s: State)
    requires Inv(s) && s.producer.UndoTail?
    ensures Enabled(s, UndoRewind)
    ensures var s' := Apply(s, UndoRewind);
            && s'.producer == Undo(s.producer.undone + 1) && s'.blocks == s.blocks && s'.spare == s.spare && s'.free == s.free
            && s'.count == s.count && s'.tail == s.tail && s'.head == s.head && s'.consumers == s.consumers
  {
    CurrentFacts(s);
    hide Inv;
  }

  lemma UndoTwo(s: State) returns (s': State)
    requires Inv(s) && s.producer.Undo? && Published(s.tail) + s.producer.undone < s.count
    ensures Leads(s, [UndoNull, UndoRewind], s') && Inv(s')
    ensures OneTakenBack(s, s') && s'.producer == Undo(s.producer.undone + 1)
  {
    hide Inv, Apply, Enabled;
    NullIsEnabled(s);
    NullTakesBack(s);
    var s1 := Apply(s, UndoNull);
    ApplyKeepsInv(s, UndoNull);
    RewindGoesOn(s1);
    s' := Apply(s1, UndoRewind);
    ApplyKeepsInv(s1, UndoRewind);
    LeadsByOne(s, UndoNull);
    LeadsByOne(s1, UndoRewind);
    LeadsOn(s, [UndoNull], s1, [UndoRewind], s');
    assert [UndoNull] + [UndoRewind] == [UndoNull, UndoRewind];
  }

  lemma OneMoreBack(s: State, s1: State, s': State)
    requires s.producer.Undo? && OneTakenBack(s, s1) && Published(s.tail) + s.producer.undone < s.count
    requires TakenBack(s1, Published(s.tail) + s.producer.undone + 1, s')
    requires forall r | r in s.blocks :: r < s.count
    ensures TakenBack(s, Published(s.tail) + s.producer.undone, s')
  {
    var q := Published(s.tail) + s.producer.undone;
    forall b ensures b in s'.free <==> b in s.free || b in s.spare || exists r | q <= r < s.count :: r in s.blocks && s.blocks[r] == b {
      if exists r | q <= r < s.count :: r in s.blocks && s.blocks[r] == b {
        var r :| q <= r < s.count && r in s.blocks && s.blocks[r] == b;
        assert r != q ==> r in s1.blocks && s1.blocks[r] == b;
      }
    }
  }

  lemma EndTakesBack(s: State)
    requires Inv(s) && s.producer.Undo? && Published(s.tail) + s.producer.undone == s.count
    ensures Enabled(s, EndUndo) && TakenBack(s, s.count, Apply(s, EndUndo))
  {
    CurrentFacts(s);
    assert DomainLaw(s);
    hide Inv;
  }

  lemma Numbers(s: State)
    requires Inv(s)
    ensures forall r | r in s.blocks :: r < s.count
  {
    assert DomainLaw(s);
  }

  lemma {:induction false} UndoesAll(s: State) returns (own: seq<Action>, s': State)
    requires Inv(s) && s.producer.Undo? && Published(s.tail) + s.producer.undone <= s.count
    ensures Leads(s, own, s') && TakenBack(s, Published(s.tail) + s.producer.undone, s')
    decreases s.count - Published(s.tail) - s.producer.undone
  {
    hide Inv, Enabled, Apply, TakenBack;
    if Published(s.tail) + s.producer.undone == s.count {
      EndTakesBack(s);
      own, s' := [EndUndo], Apply(s, EndUndo);
      LeadsByOne(s, EndUndo);
    } else {
      var s1 := UndoTwo(s);
      own, s' := UndoesAll(s1);
      Numbers(s);
      OneMoreBack(s, s1, s');
      LeadsOn(s, [UndoNull, UndoRewind], s1, own, s');
      own := [UndoNull, UndoRewind] + own;
    }
  }

  /** A producer that takes a batch back, left alone, gets every block of it out of the index and onto the free list,
      and touches no other. */
  lemma RollsBackAlone(run: seq<State>, actions: seq<Action>, i: nat) returns (own: seq<Action>, s': State)
    requires IsRun(run, actions) && AtLeast(actions, 1) && i < |run|
    requires run[i].producer == Ready && Published(run[i].tail) < run[i].count
    ensures Leads(run[i], own, s') && TakenBack(run[i], Published(run[i].tail), s')
  {
    var s := run[i];
    RunKeepsInv(run, actions, i);
    CurrentFacts(s);
    var s1 := Apply(s, StartUndo);
    ApplyKeepsInv(s, StartUndo);
    LeadsByOne(s, StartUndo);
    own, s' := UndoesAll(s1);
    LeadsOn(s, [StartUndo], s1, own, s');
    own := [StartUndo] + own;
  }
}
