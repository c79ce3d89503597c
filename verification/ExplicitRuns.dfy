/** Runs of the lookup machine of explicit producers: its laws hold in every state, and what follows for
    consumers and for blocks. */
module ExplicitRuns {
  import opened Claims
  import opened Counting
  import opened Wraparound
  import opened IndexRing
  import opened ExplicitLookup

  // ---- Runs --------------------------------------------------------------------------

  ghost predicate Inv(s: State) { IndexInv(s) && ElementsLaw(s) && LocalsLaw(s) }

  lemma ConsumeKeepsLocals(s: State, t: nat)
    requires Inv(s) && Enabled(s, Consume(t))
    ensures LocalsLaw(Step(s, t))
  {
    var s', c := Step(s, t), s.consumers[t];
    assert LocalLaw(s, c);
    StepKept(s, t);
    if c.Read? || c.SetEmpty? {
      ReadStep(s, t);
    } else if c != Idle {
      LookStep(s, t);
    }
    hide Step;
    forall u | 0 <= u < |s.consumers| && u != t ensures LocalLaw(s', s'.consumers[u]) {
      assert LocalLaw(s, s.consumers[u]);
      LocalStays(s, s', s.consumers[u]);
    }
  }

  lemma OthersKeepLocals(s: State, a: Action)
    requires Inv(s) && Enabled(s, a) && !a.Consume?
    ensures LocalsLaw(Apply(s, a))
  {
    var s' := Apply(s, a);
    ApplyKept(s, a);
    forall u | 0 <= u < |s'.consumers| ensures LocalLaw(s', s'.consumers[u]) {
      assert LocalLaw(s, s.consumers[u]);
      LocalStays(s, s', s.consumers[u]);
    }
  }

  lemma SetFlagKeepsIndex(s: State, t: nat)
    requires IndexInv(s) && Enabled(s, Consume(t)) && IsSetting(s, t)
    ensures IndexInv(Step(s, t))
  {
    var s', block := Step(s, t), s.consumers[t].block;
    ChooseKeepsHeaders(s, s');
    assert forall b | b in s.flags :: b in s'.flags && (b != block ==> s'.flags[b] == s.flags[b]);
  }

  lemma ConsumeKeepsIndex(s: State, t: nat)
    requires IndexInv(s) && Enabled(s, Consume(t)) && !s.consumers[t].SetEmpty?
    ensures IndexInv(Step(s, t))
  {
    hide LookupSlot, BlockBase, PartEnd, HeaderLaw, HasBlock;
    var s' := Step(s, t);
    assert s' == s.(consumers := s'.consumers);
  }

  lemma ApplyKeepsIndex(s: State, a: Action)
    requires Inv(s) && Enabled(s, a)
    ensures IndexInv(Apply(s, a))
  {
    match a {
      case Consume(t) =>
        assert LocalLaw(s, s.consumers[t]);
        if s.consumers[t].SetEmpty? {
          SettingIsRight(s, t);
          SetFlagKeepsIndex(s, t);
        } else {
          ConsumeKeepsIndex(s, t);
        }
      case ScanFlag => ScanKeepsIndex(s);
      case Insert(b) => InsertKeepsIndex(s, b);
      case Grow(junk) => GrowKeepsIndex(s, junk);
      case ResetFlag => ResetKeepsIndex(s);
      case WriteBase => WriteKeepsIndex(s, a);
      case WriteBlock => WriteKeepsIndex(s, a);
      case StoreFront => WriteKeepsIndex(s, a);
      case _ => QuietKeepsIndex(s, a);
    }
  }

  lemma ApplyKeepsElements(s: State, a: Action)
    requires Inv(s) && Enabled(s, a)
    ensures ElementsLaw(Apply(s, a))
  {
    match a {
      case Consume(t) =>
        assert LocalLaw(s, s.consumers[t]);
        if s.consumers[t].SetEmpty? {
          SettingIsRight(s, t);
          SetEmptyKeepsElements(s, t);
        } else {
          LookKeepsElements(s, t);
        }
      case Claim(t, k) => ClaimKeepsElements(s, t, k);
      case ScanFlag => ScanKeepsElements(s);
      case StoreFront => StoreFrontKeepsElements(s);
      case _ => ProduceKeepsElements(s, a);
    }
  }

  lemma ApplyKeepsInv(s: State, a: Action)
    requires Inv(s) && Enabled(s, a)
    ensures Inv(Apply(s, a))
  {
    ApplyKeepsIndex(s, a);
    ApplyKeepsElements(s, a);
    if a.Consume? {
      ConsumeKeepsLocals(s, a.t);
    } else {
      OthersKeepLocals(s, a);
    }
  }

  lemma InitHolds(s: State)
    requires Init(s)
    ensures Inv(s)
  {
    forall i: nat ensures ElementLaw(s, i) {
      SumZero(s.consumers, PendWeight(i));
    }
  }

  lemma {:induction false} RunKeepsInv(run: seq<State>, actions: seq<Action>, i: nat)
    requires IsRun(run, actions) && i < |run|
    ensures Inv(run[i])
  {
    if i == 0 {
      InitHolds(run[0]);
    } else {
      RunKeepsInv(run, actions, i - 1);
      ApplyKeepsInv(run[i - 1], actions[i - 1]);
    }
  }

  /** Whatever header and front a consumer has loaded, and whatever the producer has done since: the base it
      goes by is a started block's, and the slot it computes has the block that its element was put in. */
  lemma StableLookup(run: seq<State>, actions: seq<Action>, i: nat, t: nat)
    requires IsRun(run, actions) && i < |run| && t < |run[i].consumers|
    ensures var s, c := run[i], run[i].consumers[t];
            && (c.LoadBase? && c.next < c.stop ==> c.h < |s.headers| && c.slot < |s.headers[c.h].entries| && s.headers[c.h].entries[c.slot].base == Wrap(c.p * BLOCK_SIZE))
            && (c.LoadBlock? && c.next < c.stop ==>
                  c.h < |s.headers| && c.slot < |s.headers[c.h].entries| && c.next / BLOCK_SIZE in s.blockOf &&
                  s.headers[c.h].entries[c.slot] == Slots(Wrap(c.next / BLOCK_SIZE * BLOCK_SIZE), s.blockOf[c.next / BLOCK_SIZE]))
  {
    RunKeepsInv(run, actions, i);
    assert LocalLaw(run[i], run[i].consumers[t]);
    if run[i].consumers[t].LoadBase? && run[i].consumers[t].next < run[i].consumers[t].stop {
      LookupIsRight(run[i], t);
    } else if run[i].consumers[t].LoadBlock? && run[i].consumers[t].next < run[i].consumers[t].stop {
      BlockIsRight(run[i], t);
    }
  }

  /** The block of a started block number never changes. */
  lemma {:induction false} BlockStays(run: seq<State>, actions: seq<Action>, i: nat, j: nat, q: nat)
    requires IsRun(run, actions) && i <= j < |run| && q < run[i].count && q in run[i].blockOf
    ensures q < run[j].count && q in run[j].blockOf && run[j].blockOf[q] == run[i].blockOf[q]
    decreases j - i
  {
    hide Apply, Enabled, Inv;
    if i < j {
      BlockStays(run, actions, i, j - 1, q);
      RunKeepsInv(run, actions, j - 1);
      InvParts(run[j - 1]);
      assert run[j] == Apply(run[j - 1], actions[j - 1]);
      ApplyKept(run[j - 1], actions[j - 1]);
    }
  }

  lemma InvParts(s: State)
    requires Inv(s)
    ensures IndexInv(s)
  {}

  /** A block is taken for a new block number only after every element of its last one has been flagged as
      read; a block that some consumer still has an element of is in the circle under that number alone. */
  lemma ReadsOwnBlock(run: seq<State>, actions: seq<Action>, i: nat, t: nat)
    requires IsRun(run, actions) && i < |run| && t < |run[i].consumers| && run[i].consumers[t].Read?
    ensures var s, c := run[i], run[i].consumers[t]; var q := c.next / BLOCK_SIZE;
            && s.low <= q < s.count && q in s.blockOf && s.blockOf[q] == c.block && c.next < s.head
            && forall r: nat | s.low <= r < Started(s) && r != q :: r in s.blockOf && s.blockOf[r] != c.block
  {
    RunKeepsInv(run, actions, i);
    var s, c := run[i], run[i].consumers[t];
    assert LocalLaw(s, c);
    PartIs(c.from, c.stop, 0);
    SameBlockNumber(c.from, c.next, c.stop);
    PendingIsLive(s, t, c.from);
  }

  /** The scan reads one flag after the other while consumers go on setting them; when it finds the last one set
      every element of the oldest block has been claimed, and no consumer has one left to read or flag. */
  lemma ReusedWhenRead(run: seq<State>, actions: seq<Action>, i: nat, u: nat, at: nat)
    requires IsRun(run, actions) && i < |run| && u < |run[i].consumers|
    requires Enabled(run[i], ScanFlag) && Apply(run[i], ScanFlag).producer.Reset? && at / BLOCK_SIZE == run[i].low
    ensures at < run[i].head && !Pending(run[i].consumers[u], at)
  {
    RunKeepsInv(run, actions, i);
    OldestIsRead(run[i], at);
    SumMember(run[i].consumers, u, PendWeight(at));
  }

  /** And when it finds one clear, that element is still to be claimed, or to be read or flagged by exactly one
      consumer. */
  lemma RefusedWhenUnread(run: seq<State>, actions: seq<Action>, i: nat, at: nat)
    requires IsRun(run, actions) && i < |run| && Enabled(run[i], ScanFlag)
    requires Apply(run[i], ScanFlag).producer == NotEmpty
    requires at / BLOCK_SIZE == run[i].low && FlagAt(at) == run[i].producer.seen
    ensures at >= run[i].head || Sum(run[i].consumers, PendWeight(at)) == 1
  {
    RunKeepsInv(run, actions, i);
    assert ElementLaw(run[i], at);
  }

  /** The flag that a consumer is about to set is clear, as the source asserts, and in the block its element was
      put in. */
  lemma FlagWasClear(run: seq<State>, actions: seq<Action>, i: nat, t: nat)
    requires IsRun(run, actions) && i < |run| && t < |run[i].consumers| && run[i].consumers[t].SetEmpty?
    ensures var s, c := run[i], run[i].consumers[t];
            && 0 < c.left <= s.head && (c.left - 1) / BLOCK_SIZE in s.blockOf && s.blockOf[(c.left - 1) / BLOCK_SIZE] == c.block
            && c.block in s.flags && |s.flags[c.block]| == BLOCK_SIZE && !s.flags[c.block][FlagAt(c.left - 1)]
  {
    RunKeepsInv(run, actions, i);
    assert LocalLaw(run[i], run[i].consumers[t]);
    SettingIsRight(run[i], t);
  }

  lemma ClaimTakes(s: State, t: nat, k: nat)
    requires Enabled(s, Claim(t, k))
    ensures var s' := Apply(s, Claim(t, k));
            s'.head == s.head + k && s'.tail == s.tail && s'.consumers == s.consumers[t := LoadHeader(s.head, s.head + k)]
  {}

  lemma ConsumeMoves(s: State, t: nat)
    requires Enabled(s, Consume(t))
    ensures var s' := Apply(s, Consume(t));
            && s'.head == s.head && s'.tail == s.tail && |s'.consumers| == |s.consumers| && s'.consumers[t] == Step(s, t).consumers[t]
            && forall u | 0 <= u < |s.consumers| && u != t :: s'.consumers[u] == s.consumers[u]
  {
    hide LookupSlot, BlockBase, PartEnd;
  }

  lemma ProduceMoves(s: State, a: Action)
    requires Enabled(s, a) && !a.Consume? && !a.Claim?
    ensures var s' := Apply(s, a); s'.head == s.head && s'.tail == s.tail + (if a.Publish? then a.k else 0) && s'.consumers == s.consumers
  {}

  lemma GoesOn(s: State, t: nat)
    requires Inv(s) && t < |s.consumers|
    ensures Enabled(s, Consume(t))
  {
    assert LocalLaw(s, s.consumers[t]);
    CurrentFacts(s);
    ReadsAreSafe(s, t);
  }

  /** A consumer goes through what it has claimed one element after the other, and is done when nothing is left. */
  lemma StepSpans(s: State, t: nat)
    requires LocalsLaw(s) && Enabled(s, Consume(t)) && s.consumers[t] != Idle
    ensures var c, c' := s.consumers[t], Step(s, t).consumers[t];
            if c.Read? then c.next < c.stop && c' != Idle && c'.next == c.next + 1 && c'.stop == c.stop
            else if c' == Idle then c.next == c.stop
            else c'.next == c.next && c'.stop == c.stop
  {
    hide LookupSlot, BlockBase;
    var c := s.consumers[t];
    assert LocalLaw(s, c);
    if c.Read? || c.SetEmpty? {
      PartIs(c.from, c.stop, 0);
    }
  }

  /** No consumer is stopped by a slot outside the index it loaded, or by flags of a block not started; not even
      a bulk dequeue of at most zero elements, which reads a slot and leaves it at that. */
  lemma ConsumersGoOn(run: seq<State>, actions: seq<Action>, i: nat, t: nat)
    requires IsRun(run, actions) && i < |run| && t < |run[i].consumers|
    ensures Enabled(run[i], Consume(t))
  {
    RunKeepsInv(run, actions, i);
    GoesOn(run[i], t);
  }
}
