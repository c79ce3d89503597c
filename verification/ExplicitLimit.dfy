/** What the leeway check and MAX_SUBQUEUE_SIZE guarantee of an explicit producer while consumers run: they are
    asked before a new block is started, but not before the oldest block is used again.  So the sub-queue keeps
    to them exactly if each block that is used again would have passed the check as well. */
module ExplicitLimit {
  import opened Claims
  import opened Counting
  import opened Options
  import opened Wraparound
  import opened ExplicitLookup
  import opened ExplicitRuns
  import BlockStorage

  ghost predicate Reached(s0: State, s: State) {
    exists run, actions :: IsRun(run, actions) && run[0] == s0 && run[|actions|] == s
  }

  lemma OneMore(s0: State, s: State, a: Action)
    requires Reached(s0, s) && Enabled(s, a)
    ensures Reached(s0, Apply(s, a))
  {
    hide Apply, Enabled, Init;
    var run: seq<State>, actions: seq<Action> :| IsRun(run, actions) && run[0] == s0 && run[|actions|] == s;
    var run', actions' := run + [Apply(s, a)], actions + [a];
    assert IsRun(run', actions') && run'[0] == s0 && run'[|actions'|] == Apply(s, a);
  }

  lemma ReachedInv(s0: State, s: State)
    requires Reached(s0, s)
    ensures Inv(s)
  {
    var run: seq<State>, actions: seq<Action> :| IsRun(run, actions) && run[0] == s0 && run[|actions|] == s;
    RunKeepsInv(run, actions, |actions|);
  }

  /** The elements from the head up to `end` pass the check. */
  ghost predicate Fits(s: State, end: nat) { BlockStorage.HasRoom(s.head, end, s.limit) }

  /** The producer is about to use the oldest block again. */
  ghost predicate Reuses(s: State) { Enabled(s, ScanFlag) && Apply(s, ScanFlag).producer.Reset? }

  // ---- With room at each reuse ---------------------------------------------------------------

  ghost predicate SpanLaw(s: State) {
    Fits(s, Started(s) * BLOCK_SIZE) && (s.producer == Roomy ==> Fits(s, (s.count + 1) * BLOCK_SIZE))
  }

  lemma CheckKeepsSpan(s: State)
    requires Inv(s) && SpanLaw(s) && Enabled(s, CheckRoom)
    ensures SpanLaw(Apply(s, CheckRoom))
  {
    BlockStorage.FullIsExact(s.head, s.tail, s.limit);
  }

  lemma ConsumeKeepsSpan(s: State, t: nat)
    requires SpanLaw(s) && Enabled(s, Consume(t))
    ensures SpanLaw(Apply(s, Consume(t)))
  {
    hide BlockBase, PartEnd;
  }

  lemma OthersKeepSpan(s: State, a: Action)
    requires SpanLaw(s) && Enabled(s, a) && !a.CheckRoom? && !a.Consume?
    requires a.ScanFlag? && Reuses(s) ==> Fits(s, (s.count + 1) * BLOCK_SIZE)
    ensures SpanLaw(Apply(s, a))
  {
    hide Step, Reads;
  }

  lemma AtBoundary(s: State)
    requires Inv(s) && s.producer.Scan?
    ensures s.tail == s.count * BLOCK_SIZE
  {}

  lemma StepKeepsSpan(s: State, a: Action)
    requires Inv(s) && SpanLaw(s) && Enabled(s, a) && (Reuses(s) ==> Fits(s, s.tail + BLOCK_SIZE))
    ensures SpanLaw(Apply(s, a))
  {
    hide Inv, SpanLaw, Apply, Fits;
    if a.CheckRoom? {
      CheckKeepsSpan(s);
    } else if a.Consume? {
      ConsumeKeepsSpan(s, a.t);
    } else {
      if a.ScanFlag? {
        AtBoundary(s);
      }
      OthersKeepSpan(s, a);
    }
  }

  lemma StartsWithin(s: State)
    requires Init(s)
    ensures SpanLaw(s)
  {}

  lemma {:induction false} RunKeepsSpan(run: seq<State>, actions: seq<Action>, i: nat)
    requires IsRun(run, actions) && i < |run|
    requires forall j | 0 <= j < |run| && Reuses(run[j]) :: Fits(run[j], run[j].tail + BLOCK_SIZE)
    ensures SpanLaw(run[i])
  {
    hide Inv, SpanLaw, Apply, Enabled, Reuses, Fits, Init;
    if i == 0 {
      StartsWithin(run[0]);
    } else {
      RunKeepsSpan(run, actions, i - 1);
      RunKeepsInv(run, actions, i - 1);
      StepKeepsSpan(run[i - 1], actions[i - 1]);
    }
  }

  // ---- Without -------------------------------------------------------------------------------

  /** What finishing a block leaves as it was. */
  ghost predicate SameBut(s: State, s': State) {
    && s'.head == s.head && s'.consumers == s.consumers && s'.low == s.low && s'.used == s.used && s'.limit == s.limit
    && s'.blockOf == s.blockOf && s'.flags.Keys == s.flags.Keys && |s.headers| == |s'.headers| > 0
    && |Current(s').entries| == |Current(s).entries|
  }

  lemma {:induction false} ResetsOn(s0: State, s: State) returns (s': State)
    requires Reached(s0, s) && s.producer.Reset?
    ensures Reached(s0, s') && s'.producer == Chosen && SameBut(s, s') && s'.count == s.count && s'.tail == s.tail
    decreases if s.producer.Reset? then BLOCK_SIZE - s.producer.cleared else 0
  {
    ReachedInv(s0, s);
    CurrentFacts(s);
    hide Reached, Inv;
    OneMore(s0, s, ResetFlag);
    s' := Apply(s, ResetFlag);
    if s'.producer.Reset? {
      s' := ResetsOn(s0, s');
    }
  }

  /** The slot is written, the front moved, and a whole block of elements published, with no consumer having
      moved. */
  lemma FillsBlock(s0: State, s: State) returns (s': State)
    requires Reached(s0, s) && s.producer.Reset?
    ensures Reached(s0, s') && s'.producer == Ready && SameBut(s, s') && s'.count == s.count + 1
    ensures s'.tail == s.tail + BLOCK_SIZE
    ensures s'.tail == s'.count * BLOCK_SIZE
  {
    ReachedInv(s0, s);
    AtStart(s);
    s' := ResetsOn(s0, s);
    s' := Writes(s0, s');
    OneMore(s0, s', Publish(BLOCK_SIZE));
    s' := Apply(s', Publish(BLOCK_SIZE));
  }

  lemma AtStart(s: State)
    requires Inv(s) && HasChosen(s.producer)
    ensures s.tail == s.count * BLOCK_SIZE && s.count in s.blockOf && |s.headers| > 0 && |Current(s).entries| > 0
  {
    CurrentFacts(s);
  }

  lemma Writes(s0: State, s: State) returns (s': State)
    requires Reached(s0, s) && s.producer == Chosen
    ensures Reached(s0, s') && s'.producer == Ready && SameBut(s, s') && s'.count == s.count + 1 && s'.tail == s.tail
    ensures |Current(s').entries| > 0
  {
    ReachedInv(s0, s);
    AtStart(s);
    hide Reached, Inv;
    OneMore(s0, s, WriteBase);
    var s1 := Apply(s, WriteBase);
    OneMore(s0, s1, WriteBlock);
    var s2 := Apply(s1, WriteBlock);
    OneMore(s0, s2, StoreFront);
    s' := Apply(s2, StoreFront);
  }

  /** A block that is used again can be filled before any consumer moves. */
  lemma FillsReused(s0: State, s: State) returns (s': State)
    requires Reached(s0, s) && Reuses(s)
    ensures Reached(s0, s') && s'.head == s.head && s'.limit == s.limit && s'.tail == s.tail + BLOCK_SIZE
  {
    OneMore(s0, s, ScanFlag);
    s' := FillsBlock(s0, Apply(s, ScanFlag));
  }

  /** From a given start the sub-queue keeps to the leeway and to the limit in every state exactly if each block
      that is used again would have passed the check. */
  lemma LimitKeptIff(s0: State)
    requires Init(s0)
    ensures (forall s | Reached(s0, s) :: Fits(s, s.tail)) <==> (forall s | Reached(s0, s) && Reuses(s) :: Fits(s, s.tail + BLOCK_SIZE))
  {
    if forall s | Reached(s0, s) && Reuses(s) :: Fits(s, s.tail + BLOCK_SIZE) {
      forall s | Reached(s0, s) ensures Fits(s, s.tail) {
        ReachedFits(s0, s);
      }
    }
    if forall s | Reached(s0, s) :: Fits(s, s.tail) {
      forall s | Reached(s0, s) && Reuses(s) ensures Fits(s, s.tail + BLOCK_SIZE) {
        var s' := FillsReused(s0, s);
        assert Fits(s', s'.tail);
      }
    }
  }

  lemma ReachedFits(s0: State, s: State)
    requires Reached(s0, s) && forall s | Reached(s0, s) && Reuses(s) :: Fits(s, s.tail + BLOCK_SIZE)
    ensures Fits(s, s.tail)
  {
    var run: seq<State>, actions: seq<Action> :| IsRun(run, actions) && run[0] == s0 && run[|actions|] == s;
    forall j | 0 <= j < |run| && Reuses(run[j]) ensures Fits(run[j], run[j].tail + BLOCK_SIZE) {
      PartIsReached(run, actions, j);
    }
    RunKeepsSpan(run, actions, |actions|);
    ReachedInv(s0, s);
  }

  lemma PartIsReached(run: seq<State>, actions: seq<Action>, j: nat)
    requires IsRun(run, actions) && j < |run|
    ensures Reached(run[0], run[j])
  {
    hide Apply, Enabled, Init;
    assert IsRun(run[..j + 1], actions[..j]);
    assert run[..j + 1][0] == run[0] && run[..j + 1][|actions[..j]|] == run[j];
  }

  // ---- A run beyond the limit ------------------------------------------------------------------

  /** Block numbers below `count` are in the blocks of the same numbers, and no consumer but the first exists. */
  ghost predicate Plain(s: State, blocks: nat) {
    && s.producer == Ready && s.low == 0 && s.used == s.count && s.tail == s.count * BLOCK_SIZE && |s.consumers| == 1
    && (forall q: nat :: q in s.blockOf <==> q < s.count) && (forall q | q in s.blockOf :: s.blockOf[q] == q)
    && (forall b: nat :: b in s.flags <==> b < blocks) && |s.headers| > 0
  }

  lemma Refused(s0: State, s: State, blocks: nat) returns (s': State)
    requires Reached(s0, s) && Plain(s, blocks) && (s.used > 0 ==> !IsFlagged(s, BLOCK_SIZE - 1))
    ensures Reached(s0, s') && s' == s.(producer := NotEmpty)
  {
    ReachedInv(s0, s);
    CurrentFacts(s);
    hide Reached;
    OneMore(s0, s, StartScan);
    s' := Apply(s, StartScan);
    if s.used > 0 {
      assert s.blockOf[s.low] == 0 && FlagAt(BLOCK_SIZE - 1) == 0;
      OneMore(s0, s', ScanFlag);
      s' := Apply(s', ScanFlag);
    }
  }

  /** With an unread element in the oldest block, and room, one more block goes in and is filled. */
  lemma InsertsBlock(s0: State, s: State, blocks: nat) returns (s': State)
    requires Reached(s0, s) && Plain(s, blocks) && s.count < blocks <= |Current(s).entries|
    requires s.used < |Current(s).entries|
    requires (s.used > 0 ==> !IsFlagged(s, BLOCK_SIZE - 1)) && Fits(s, s.tail + BLOCK_SIZE)
    ensures Reached(s0, s') && Plain(s', blocks) && s'.count == s.count + 1 && s'.head == s.head
    ensures s'.consumers == s.consumers
    ensures s'.limit == s.limit && |Current(s').entries| == |Current(s).entries|
  {
    var s1 := Refused(s0, s, blocks);
    var s2 := PassesCheck(s0, s, s1);
    var s3 := Chooses(s0, s, s2, blocks);
    hide Reached, Fits, IsFlagged, Plain, SameBut;
    s' := FillsBlock(s0, s3);
    PlainAgain(s, s3, s', blocks);
  }

  lemma PlainAgain(s: State, s3: State, s': State, blocks: nat)
    requires Plain(s, blocks) && s'.producer == Ready && s'.count == s.count + 1 && s'.tail == s'.count * BLOCK_SIZE
    requires s3 == s.(producer := Reset(0), blockOf := s.blockOf[s.count := s.count], used := s.used + 1)
    requires SameBut(s3, s')
    ensures Plain(s', blocks) && s'.head == s.head && s'.consumers == s.consumers && s'.limit == s.limit
    ensures |Current(s').entries| == |Current(s).entries|
  {
    assert s'.flags.Keys == s.flags.Keys;
    assert forall b: nat :: b in s'.flags <==> b in s.flags.Keys;
    assert forall b: nat :: b in s.flags <==> b in s.flags.Keys;
  }

  lemma PassesCheck(s0: State, s: State, s1: State) returns (s2: State)
    requires Reached(s0, s) && s.tail == s.count * BLOCK_SIZE && Fits(s, s.tail + BLOCK_SIZE)
    requires Reached(s0, s1) && s1 == s.(producer := NotEmpty)
    ensures Reached(s0, s2) && s2 == s.(producer := Roomy)
  {
    ReachedInv(s0, s);
    CurrentFacts(s);
    BlockStorage.FullIsExact(s.head, s.tail, s.limit);
    OneMore(s0, s1, CheckRoom);
    s2 := Apply(s1, CheckRoom);
  }

  lemma Chooses(s0: State, s: State, s2: State, blocks: nat) returns (s3: State)
    requires Plain(s, blocks) && s.count < blocks && s.used < |Current(s).entries|
    requires Reached(s0, s2) && s2 == s.(producer := Roomy)
    ensures Reached(s0, s3)
    ensures s3 == s.(producer := Reset(0), blockOf := s.blockOf[s.count := s.count], used := s.used + 1)
  {
    OneMore(s0, s2, Insert(s.count));
    s3 := Apply(s2, Insert(s.count));
  }

  /** The first `count` blocks go in before anything is claimed. */
  lemma {:induction false} InsertsBlocks(s0: State, blocks: nat, count: nat) returns (s: State)
    requires Init(s0) && Plain(s0, blocks) && count < blocks <= |Current(s0).entries|
    requires s0.limit.Some? && count * BLOCK_SIZE <= s0.limit.value && count * BLOCK_SIZE < HALF
    ensures Reached(s0, s) && Plain(s, blocks) && s.count == count && s.head == 0 && s.consumers == s0.consumers
    ensures s.limit == s0.limit && |Current(s).entries| == |Current(s0).entries|
  {
    if count == 0 {
      assert IsRun([s0], []);
      s := s0;
    } else {
      s := InsertsBlocks(s0, blocks, count - 1);
      ReachedInv(s0, s);
      assert ElementLaw(s, BLOCK_SIZE - 1);
      s := InsertsBlock(s0, s, blocks);
    }
  }

  /** How far a consumer is from having nothing left to do. */
  function Work(c: Consumer): int {
    match c
    case Idle => 0
    case LoadHeader(next, stop) => 3 * (stop - next) + 6
    case LoadFront(next, stop, _) => 3 * (stop - next) + 5
    case LoadBase(next, stop, _, _, _) => 3 * (stop - next) + 4
    case LoadBlock(next, stop, _, _) => 3 * (stop - next) + 3
    case Read(next, stop, _, _, from, _) => 3 * (stop - next) + next - from + 2
    case SetEmpty(next, stop, _, _, from, _, left) => 3 * (stop - next) + left - from + 3
  }

  lemma StepWorks(s: State, t: nat)
    requires Inv(s) && t < |s.consumers| && s.consumers[t] != Idle && Enabled(s, Consume(t))
    ensures var s' := Step(s, t);
            && 0 <= Work(s'.consumers[t]) < Work(s.consumers[t]) && s'.flags.Keys == s.flags.Keys
            && s' == s.(flags := s'.flags, consumers := s.consumers[t := s'.consumers[t]])
  {
    hide BlockBase;
    var c := s.consumers[t];
    assert LocalLaw(s, c);
    if c.Read? || c.SetEmpty? {
      PartIs(c.from, c.stop, 0);
    }
    if c.SetEmpty? {
      SettingIsRight(s, t);
    }
  }

  /** A call runs to its end while nothing else moves. */
  lemma {:induction false} RunsDry(s0: State, s: State, t: nat) returns (s': State)
    requires Reached(s0, s) && t < |s.consumers| && Work(s.consumers[t]) >= 0
    ensures Reached(s0, s') && s' == s.(flags := s'.flags, consumers := s.consumers[t := Idle])
    ensures s'.flags.Keys == s.flags.Keys
    decreases Work(s.consumers[t])
  {
    s' := s;
    if s.consumers[t] == Idle {
      assert s.consumers[t := Idle] == s.consumers;
    } else {
      ReachedInv(s0, s);
      GoesOn(s, t);
      StepWorks(s, t);
      hide Reached, Inv, Enabled, Work;
      OneMore(s0, s, Consume(t));
      s' := RunsDry(s0, Step(s, t), t);
      assert s.consumers[t := Step(s, t).consumers[t]][t := Idle] == s.consumers[t := Idle];
    }
  }

  /** All elements of the oldest block are claimed and no call is in progress: the scan goes to the last flag. */
  lemma {:induction false} ScansOn(s0: State, s: State) returns (s': State)
    requires Reached(s0, s) && s.producer.Scan? && s.producer.seen < BLOCK_SIZE && s.low == 0 && s.head >= BLOCK_SIZE
    requires forall t | 0 <= t < |s.consumers| :: s.consumers[t] == Idle
    ensures Reached(s0, s') && Reuses(s') && s'.head == s.head && s'.tail == s.tail && s'.limit == s.limit
    decreases if s.producer.Scan? then BLOCK_SIZE - s.producer.seen else 0
  {
    ReachedInv(s0, s);
    CurrentFacts(s);
    var at := BLOCK_SIZE - 1 - s.producer.seen;
    SumZero(s.consumers, PendWeight(at));
    assert ElementLaw(s, at);
    assert IsFlagged(s, at) && FlagAt(at) == s.producer.seen && at / BLOCK_SIZE == 0;
    s' := s;
    if s.producer.seen + 1 < BLOCK_SIZE {
      OneMore(s0, s, ScanFlag);
      s' := ScansOn(s0, Apply(s, ScanFlag));
    }
  }

  /** Whatever the limit: a consumer claims the first block's elements and does not flag them yet; another block
      goes in; then the first is flagged, used again, and filled. */
  lemma OverLimit(size: nat, blocks: nat) returns (s0: State, s: State)
    requires 0 < blocks < size && INDEX_RANGE % size == 0 && size * BLOCK_SIZE <= HALF
    ensures Init(s0) && s0.limit == Some(blocks * BLOCK_SIZE)
    ensures Reached(s0, s) && s.limit == s0.limit && s.tail - s.head > blocks * BLOCK_SIZE
  {
    s0 := Begin(size, blocks);
    s := InsertsBlocks(s0, blocks + 1, blocks);
    s := ClaimsFirst(s0, s, blocks);
    s := InsertsBlock(s0, s, blocks + 1);
    s := RunsDry(s0, s, 0);
    ReachedInv(s0, s);
    CurrentFacts(s);
    OneMore(s0, s, StartScan);
    s := ScansOn(s0, Apply(s, StartScan));
    s := FillsReused(s0, s);
  }

  /** The flags of blocks 0 to n - 1, all clear. */
  function Clear(n: nat): (flags: map<Block, seq<bool>>)
    ensures forall b: nat :: b in flags <==> b < n
    ensures forall b | b in flags :: |flags[b]| == BLOCK_SIZE
  {
    if n == 0 then map[] else Clear(n - 1)[n - 1 := seq(BLOCK_SIZE, _ => false)]
  }

  function Begin(size: nat, blocks: nat): State {
    State([Header(seq(size, _ => Slots(0, 0)), 0, 0, 0)], 0, 0, 0, 0, Clear(blocks + 1),
          Ready, [Idle], map[], 0, Some(blocks * BLOCK_SIZE))
  }

  lemma ClaimsFirst(s0: State, s: State, blocks: nat) returns (s': State)
    requires Reached(s0, s) && Plain(s, blocks + 1) && s.count == blocks > 0 && s.head == 0 && s.consumers == [Idle]
    requires s.limit == Some(blocks * BLOCK_SIZE) && (blocks + 1) * BLOCK_SIZE <= HALF
    ensures Reached(s0, s') && Plain(s', blocks + 1) && s'.count == blocks && s'.head == BLOCK_SIZE
    ensures s'.consumers == [LoadHeader(0, BLOCK_SIZE)] && s'.limit == s.limit
    ensures |Current(s').entries| == |Current(s).entries|
    ensures !IsFlagged(s', BLOCK_SIZE - 1) && Fits(s', s'.tail + BLOCK_SIZE)
  {
    ReachedInv(s0, s);
    CurrentFacts(s);
    OneMore(s0, s, Claim(0, BLOCK_SIZE));
    s' := Apply(s, Claim(0, BLOCK_SIZE));
    ReachedInv(s0, s');
    PendingIsLive(s', 0, BLOCK_SIZE - 1);
  }
}
