/** Runs of the lookup machine of implicit producers: its laws hold in every state, and what follows for
    consumers and for blocks. */
module ImplicitRuns {
  import opened Claims
  import opened Counting
  import opened Modular
  import opened Options
  import opened Wraparound
  import opened IndexRing
  import opened ImplicitLookup
  import opened ImplicitReaders

  type Block = ImplicitLookup.Block

  // ---- Runs --------------------------------------------------------------------------

  ghost predicate Inv(s: State) { IndexInv(s) && CountsLaw(s) && LocalsLaw(s) && OwnerLaw(s) }

  lemma InitHolds(s: State)
    requires Init(s)
    ensures IndexInv(s) && CountsLaw(s) && LocalsLaw(s)
  {
    var x := s.headers[0];
    RemainderIsUnique(-1, -1, |x.index| - 1, |x.index|);
    forall q: nat ensures CountLaw(s, q) {
      SumZero(s.consumers, PendingWeight(q));
      SumZero(s.consumers, ClearWeight(q));
    }
  }

  lemma ApplyKeepsIndex(s: State, a: Action)
    requires Inv(s) && Enabled(s, a)
    ensures IndexInv(Apply(s, a))
  {
    match a {
      case Consume(t) =>
        assert LocalLaw(s, s.consumers[t]);
        if s.consumers[t].Clear? {
          ClearKeepsIndex(s, t);
        } else {
          LookKeepsIndex(s, t);
        }
      case Test => TestKeepsIndex(s);
      case Key => KeyKeepsIndex(s);
      case MoveTail => MoveTailKeepsIndex(s);
      case Store(b) => StoreKeepsIndex(s, b);
      case Rewind => RewindKeepsIndex(s);
      case Null => NullKeepsIndex(s);
      case Grow(added) => GrowKeepsIndex(s, added);
      case UndoNull => UndoNullKeepsIndex(s);
      case UndoRewind => UndoRewindKeepsIndex(s);
      case _ => QuietKeepsIndex(s, a);
    }
  }

  /** The index laws ask nothing of consumers, counters and the free list. */
  lemma SameIndex(s: State, s': State)
    requires IndexInv(s) && s' == s.(done := s'.done, free := s'.free, consumers := s'.consumers)
    ensures IndexInv(s')
  {
    HeadersStay(s, s');
    NumbersStay(s, s');
    FreesStay(s, s');
  }

  lemma LookKeepsIndex(s: State, t: nat)
    requires IndexInv(s) && Enabled(s, Consume(t)) && !s.consumers[t].Clear?
    ensures IndexInv(Apply(s, Consume(t)))
  {
    var s' := Step(s, t);
    if s.consumers[t].Count? {
      CountShape(s, t);
    } else if s.consumers[t].Release? {
      assert s' == s.(free := s'.free, consumers := s'.consumers);
    } else {
      LookShape(s, t);
    }
    hide Step, IndexInv;
    SameIndex(s, s');
  }

  lemma ApplyKeepsCounts(s: State, a: Action)
    requires Inv(s) && Enabled(s, a) && (a.Claim? ==> a.k > 0)
    ensures CountsLaw(Apply(s, a))
  {
    match a {
      case Consume(t) =>
        assert LocalLaw(s, s.consumers[t]);
        if s.consumers[t].Clear? {
          ClearKeepsCounts(s, t);
        } else if s.consumers[t].Count? {
          CountKeepsCounts(s, t);
        } else {
          LookKeepsCounts(s, t);
        }
      case Claim(t, k) => ClaimKeepsCounts(s, t, k);
      case Store(b) => StoreKeepsCounts(s, b);
      case UndoNull => UndoNullKeepsCounts(s);
      case _ => QuietKeepsCounts(s, a);
    }
  }

  lemma ApplyKeepsInv(s: State, a: Action)
    requires Inv(s) && Enabled(s, a) && (a.Claim? ==> a.k > 0)
    ensures Inv(Apply(s, a)) && Everything(Apply(s, a)) == Everything(s)
  {
    hide Apply, Enabled, IndexInv, CountsLaw, LocalsLaw, OwnerLaw, Everything;
    ApplyKeepsIndex(s, a);
    ApplyKeepsCounts(s, a);
    match a {
      case Consume(t) =>
        ConsumeKeepsLocals(s, t);
        ConsumeKeepsOwners(s, t);
        ConsumeKeepsEverything(s, t);
      case Claim(t, k) =>
        ClaimKeepsLocals(s, t, k);
        ProduceKeepsOwners(s, a);
        ProduceKeepsEverything(s, a);
      case _ =>
        ProduceKeepsLocals(s, a);
        ProduceKeepsOwners(s, a);
        ProduceKeepsEverything(s, a);
    }
  }

  lemma {:induction false} RunKeepsInv(run: seq<State>, actions: seq<Action>, i: nat)
    requires IsRun(run, actions) && AtLeast(actions, 1) && i < |run|
    ensures Inv(run[i])
  {
    if i == 0 {
      InitHolds(run[0]);
    } else {
      RunKeepsInv(run, actions, i - 1);
      ApplyKeepsInv(run[i - 1], actions[i - 1]);
    }
  }

  /** A consumer that has computed its slot finds there the entry keyed for its block, with the block that
      the producer put its element in; and the key it computed from was a valid one. */
  lemma StaleLookup(run: seq<State>, actions: seq<Action>, i: nat, t: nat)
    requires IsRun(run, actions) && AtLeast(actions, 1) && i < |run| && t < |run[i].consumers|
    ensures var s, c := run[i], run[i].consumers[t];
            && (c.LoadKey? ==>
                  c.h < |s.headers| && c.slot < |s.headers[c.h].index| && s.headers[c.h].index[c.slot] < |s.entries| &&
                  s.entries[s.headers[c.h].index[c.slot]].key != INVALID_BLOCK_BASE)
            && (c.LoadValue? ==>
                  c.h < |s.headers| && c.slot < |s.headers[c.h].index| && s.headers[c.h].index[c.slot] < |s.entries| && c.next / BLOCK_SIZE in s.blocks &&
                  s.entries[s.headers[c.h].index[c.slot]] == Entry(Wrap(c.next / BLOCK_SIZE * BLOCK_SIZE), Some(s.blocks[c.next / BLOCK_SIZE])))
  {
    RunKeepsInv(run, actions, i);
    var c := run[i].consumers[t];
    assert LocalLaw(run[i], c);
    if c.LoadKey? {
      LookupIsRight(run[i], t);
    } else if c.LoadValue? {
      ValueIsRight(run[i], t);
    }
  }

  /** While a consumer reads a block, the block is the one its elements are in, and nobody else can have it. */
  lemma ReadsOwnBlock(run: seq<State>, actions: seq<Action>, i: nat, t: nat)
    requires IsRun(run, actions) && AtLeast(actions, 1) && i < |run| && t < |run[i].consumers|
    requires run[i].consumers[t].Read?
    ensures var s, c := run[i], run[i].consumers[t]; var q := c.next / BLOCK_SIZE;
            && q in s.blocks && s.blocks[q] == c.block && c.next < s.head
            && c.block !in s.free && c.block !in s.spare && c.block !in Hands(s)
            && forall r | r in s.blocks && r != q :: s.blocks[r] != c.block
  {
    RunKeepsInv(run, actions, i);
    var s, c := run[i], run[i].consumers[t];
    assert LocalLaw(s, c);
    PartIs(c.from, c.stop, 0);
    SameBlockNumber(c.from, c.next, c.stop);
    forall u | 0 <= u < |s.consumers| && s.consumers[u].Release? ensures s.consumers[u].block != c.block {
      assert HandLaw(s, s.consumers[u]);
    }
  }

  /** A block leaves the index once all its elements have been counted as read: none is still claimed by any
      consumer, and none is left to claim.  Only one consumer is then taking it out. */
  lemma ReleasedWhenRead(run: seq<State>, actions: seq<Action>, i: nat, t: nat, u: nat)
    requires IsRun(run, actions) && AtLeast(actions, 1) && i < |run| && t < |run[i].consumers|
    requires run[i].consumers[t].Clear?
    requires u < |run[i].consumers|
    ensures var s, q := run[i], run[i].consumers[t].q;
            && q in s.done && s.done[q] == BLOCK_SIZE && (q + 1) * BLOCK_SIZE <= s.head
            && Overlap(From(s.consumers[u]), Stop(s.consumers[u]), q) == 0
            && (u != t ==> !(s.consumers[u].Clear? && s.consumers[u].q == q))
  {
    RunKeepsInv(run, actions, i);
    var s, q := run[i], run[i].consumers[t].q;
    assert LocalLaw(s, s.consumers[t]) && CountLaw(s, q);
    SumMember(s.consumers, t, ClearWeight(q));
    SumMember(s.consumers, u, PendingWeight(q));
    if u != t {
      ClearsAlone(s, t, u);
    }
  }

  lemma ConsumeStays(s: State, t: nat, q: nat)
    requires Enabled(s, Consume(t)) && q in Step(s, t).blocks
    ensures q in s.blocks && Step(s, t).blocks[q] == s.blocks[q]
  {
    hide LookupSlot, BlockBase, PartEnd;
  }

  lemma ProduceStays(s: State, a: Action, q: nat)
    requires DomainLaw(s) && Enabled(s, a) && !a.Consume? && q < Published(s.tail) && q in Apply(s, a).blocks
    ensures q in s.blocks && Apply(s, a).blocks[q] == s.blocks[q]
  {
    hide LookupSlot, FoundEntry, NextEntry, HasIndex, IsFree, Wrap, BlockBase, PartEnd, Step;
  }

  /** Block numbers that have been given out come to an end no earlier than the published elements do. */
  lemma ProduceCounts(s: State, a: Action)
    requires DomainLaw(s) && Enabled(s, a) && !a.Consume?
    ensures Apply(s, a).count >= s.count || a.EndUndo?
    ensures s.tail <= Apply(s, a).count * BLOCK_SIZE
  {
    hide LookupSlot, FoundEntry, NextEntry, HasIndex, IsFree, Wrap, BlockBase, PartEnd, Step;
  }

  lemma StepStays(s: State, a: Action, q: nat)
    requires IndexInv(s) && Enabled(s, a) && q < Published(s.tail) && q in Apply(s, a).blocks
    ensures q in s.blocks && Apply(s, a).blocks[q] == s.blocks[q]
  {
    hide HeadersLaw, CurrentLaw, NumbersLaw, TestLaw, DomainLaw, Step;
    if a.Consume? {
      ConsumeStays(s, a.t, q);
    } else {
      ProduceStays(s, a, q);
    }
  }

  lemma TailGrows(s: State, a: Action)
    requires Enabled(s, a)
    ensures s.tail <= Apply(s, a).tail
  {
    hide LookupSlot, BlockBase, PartEnd;
  }

  /** Once elements of a block number have been published it keeps the block that they were put in, until it
      leaves the index for good. */
  lemma {:induction false} BlockStays(run: seq<State>, actions: seq<Action>, i: nat, j: nat, q: nat)
    requires IsRun(run, actions) && AtLeast(actions, 1) && i <= j < |run| && q < Published(run[i].tail)
    requires q in run[j].blocks
    ensures q in run[i].blocks && run[i].blocks[q] == run[j].blocks[q]
    decreases j - i
  {
    hide Apply, Enabled, Inv;
    if i < j {
      RunKeepsInv(run, actions, j - 1);
      TailsGrow(run, actions, i, j - 1);
      PublishedGrows(run[i].tail, run[j - 1].tail);
      InvParts(run[j - 1]);
      assert run[j] == Apply(run[j - 1], actions[j - 1]);
      StepStays(run[j - 1], actions[j - 1], q);
      BlockStays(run, actions, i, j - 1, q);
    }
  }

  lemma InvParts(s: State)
    requires Inv(s)
    ensures IndexInv(s) && LocalsLaw(s)
  {}

  lemma {:induction false} TailsGrow(run: seq<State>, actions: seq<Action>, i: nat, j: nat)
    requires IsRun(run, actions) && i <= j < |run|
    ensures run[i].tail <= run[j].tail
    decreases j - i
  {
    hide Apply, Enabled;
    if i < j {
      assert run[j] == Apply(run[j - 1], actions[j - 1]);
      TailGrows(run[j - 1], actions[j - 1]);
      TailsGrow(run, actions, i, j - 1);
    }
  }

  /** Blocks are neither lost nor handed out twice. */
  lemma {:induction false} BlocksAreConserved(run: seq<State>, actions: seq<Action>, i: nat)
    requires IsRun(run, actions) && AtLeast(actions, 1) && i < |run|
    ensures Everything(run[i]) == run[0].free && OwnerLaw(run[i])
  {
    RunKeepsInv(run, actions, i);
    if i == 0 {
      assert Hands(run[0]) == {};
    } else {
      RunKeepsInv(run, actions, i - 1);
      ApplyKeepsInv(run[i - 1], actions[i - 1]);
      BlocksAreConserved(run, actions, i - 1);
    }
  }

  lemma ClaimTakes(s: State, t: nat, k: nat)
    requires Enabled(s, Claim(t, k))
    ensures var s' := Apply(s, Claim(t, k));
            s'.head == s.head + k && s'.tail == s.tail && s'.consumers == s.consumers[t := LoadHeader(s.head, s.head + k)]
  {}

  lemma ConsumeMoves(s: State, t: nat)
    requires Enabled(s, Consume(t))
    ensures var s' := Apply(s, Consume(t));
            && s'.head == s.head && s'.tail == s.tail && |s'.consumers| == |s.consumers| && s'.consumers[t] == Step(s, t).consumers[t]
            && forall u | 0 <= u < |s.consumers| && u != t :: s'.consumers[u] == s.consumers[u]
  {
    hide LookupSlot, BlockBase, PartEnd, Reads, HasIndex;
  }

  lemma ProduceMoves(s: State, a: Action)
    requires Enabled(s, a) && !a.Consume? && !a.Claim?
    ensures var s' := Apply(s, a); s'.head == s.head && s'.tail == s.tail + (if a.Publish? then a.k else 0) && s'.consumers == s.consumers
  {}

  lemma GoesOn(s: State, t: nat)
    requires Inv(s) && t < |s.consumers|
    ensures Enabled(s, Consume(t))
  {
    assert LocalLaw(s, s.consumers[t]);
    CurrentFacts(s);
    ReadsAreSafe(s, t);
  }

  /** A consumer goes through what it has claimed one element after the other, and is done when nothing is left. */
  lemma StepSpans(s: State, t: nat)
    requires IndexInv(s) && LocalsLaw(s) && Enabled(s, Consume(t)) && s.consumers[t] != Idle
    ensures var c, c' := s.consumers[t], Step(s, t).consumers[t];
            if c.Read? then c.next < c.stop && c' != Idle && c'.next == c.next + 1 && c'.stop == c.stop
            else if c' == Idle then c.next == c.stop
            else c'.next == c.next && c'.stop == c.stop
  {
    hide LookupSlot, BlockBase, IndexInv;
    var c := s.consumers[t];
    assert LocalLaw(s, c);
    if c.Read? || c.Count? {
      PartIs(c.from, c.stop, 0);
    }
  }

  /** No consumer is ever stopped by a null pointer or a slot outside the index. */
  lemma ConsumersGoOn(run: seq<State>, actions: seq<Action>, i: nat, t: nat)
    requires IsRun(run, actions) && AtLeast(actions, 1) && i < |run| && t < |run[i].consumers|
    ensures Enabled(run[i], Consume(t))
  {
    RunKeepsInv(run, actions, i);
    GoesOn(run[i], t);
  }
}
