/** What calls on an explicit producer come to in the lookup machine: consumers and producer finish what they have
    begun, and a block that has been read is used again. */
module ExplicitCalls {
  import opened Claims
  import opened Counting
  import opened IndexRing
  import opened Wraparound
  import opened ExplicitLookup
  import opened ExplicitRuns
  import BlockStorage

  /** The actions can be performed one after the other and lead from s to s'. */
  ghost predicate Leads(s: State, actions: seq<Action>, s': State)
    decreases |actions|
  {
    if actions == [] then s' == s
    else Enabled(s, actions[0]) && Leads(Apply(s, actions[0]), actions[1..], s')
  }

  lemma {:induction false} LeadsOn(s: State, actions: seq<Action>, s1: State, more: seq<Action>, s2: State)
    requires Leads(s, actions, s1) && Leads(s1, more, s2)
    ensures Leads(s, actions + more, s2)
    decreases |actions|
  {
    hide Enabled, Apply;
    if actions == [] {
      assert actions + more == more;
    } else {
      assert (actions + more)[1..] == actions[1..] + more;
      LeadsOn(Apply(s, actions[0]), actions[1..], s1, more, s2);
    }
  }

  lemma LeadsByOne(s: State, a: Action)
    requires Enabled(s, a)
    ensures Leads(s, [a], Apply(s, a))
  {
    assert [a][1..] == [];
  }

  // ---- Consumers ---------------------------------------------------------------------

  ghost predicate AllIdle(s: State) { forall t | 0 <= t < |s.consumers| :: s.consumers[t] == Idle }

  /** With no consumer in a call the flags tell exactly, of every element of a block in the circle, whether it has been
      claimed. */
  lemma FlagsTell(run: seq<State>, actions: seq<Action>, i: nat, at: nat)
    requires IsRun(run, actions) && i < |run| && AllIdle(run[i])
    requires run[i].low * BLOCK_SIZE <= at < run[i].count * BLOCK_SIZE
    ensures IsFlagged(run[i], at) <==> at < run[i].head
  {
    RunKeepsInv(run, actions, i);
    assert ElementLaw(run[i], at);
    SumZero(run[i].consumers, PendWeight(at));
  }

  function Stage(c: Consumer): nat {
    match c
    case Idle => 0
    case SetEmpty(_, _, _, _, _, _, _) => 1
    case Read(_, _, _, _, _, _) => 2
    case LoadBlock(_, _, _, _) => 3
    case LoadBase(_, _, _, _, _) => 4
    case LoadFront(_, _, _) => 5
    case LoadHeader(_, _) => 6
  }

  /** Elements of blocks not yet flagged to the last. */
  function Unflagged(c: Consumer): int {
    match c
    case Idle => 0
    case Read(_, stop, _, _, from, _) => stop - from
    case SetEmpty(_, stop, _, _, from, _, _) => stop - from
    case _ => c.stop - c.next
  }

  /** Elements of the current block to be read, or to be flagged. */
  function Left(c: Consumer): int { if c.Read? then c.stop - c.next else if c.SetEmpty? then c.left - c.from else 0 }

  predicate Measured(c: Consumer) { Unflagged(c) >= 0 && Left(c) >= 0 }

  lemma AllMeasured(s: State, t: nat)
    requires Inv(s) && t < |s.consumers|
    ensures Measured(s.consumers[t])
  {
    assert LocalLaw(s, s.consumers[t]);
  }

  lemma ConsumerComesNearer(s: State, t: nat)
    requires Inv(s) && t < |s.consumers| && s.consumers[t] != Idle && Enabled(s, Consume(t))
    ensures var c, c' := s.consumers[t], Step(s, t).consumers[t];
            || Unflagged(c') < Unflagged(c) || (Unflagged(c') == Unflagged(c) && Stage(c') < Stage(c))
            || (Unflagged(c') == Unflagged(c) && Stage(c') == Stage(c) && Left(c') < Left(c))
  {
    hide LookupSlot, BlockBase, IndexInv, ElementsLaw;
    var c := s.consumers[t];
    assert LocalLaw(s, c);
  }

  lemma {:induction false} ConsumerFinishes(s: State, t: nat) returns (own: seq<Action>, s': State)
    requires Inv(s) && t < |s.consumers| && Measured(s.consumers[t])
    ensures Leads(s, own, s') && (forall k | 0 <= k < |own| :: own[k] == Consume(t))
    ensures t < |s'.consumers| && s'.consumers[t] == Idle
    decreases Unflagged(s.consumers[t]), Stage(s.consumers[t]), Left(s.consumers[t])
  {
    hide Inv, Enabled, Apply, Step, Unflagged, Left, Stage;
    if s.consumers[t] == Idle {
      own, s' := [], s;
    } else {
      GoesOn(s, t);
      ConsumerComesNearer(s, t);
      ApplyKeepsInv(s, Consume(t));
      ConsumeMoves(s, t);
      AllMeasured(Apply(s, Consume(t)), t);
      own, s' := ConsumerFinishes(Apply(s, Consume(t)), t);
      LeadsByOne(s, Consume(t));
      LeadsOn(s, [Consume(t)], Apply(s, Consume(t)), own, s');
      own := [Consume(t)] + own;
    }
  }

  /** A consumer that is left alone, wherever it is, comes to the end of its call. */
  lemma ConsumerReturns(run: seq<State>, actions: seq<Action>, i: nat, t: nat) returns (own: seq<Action>, s': State)
    requires IsRun(run, actions) && i < |run| && t < |run[i].consumers|
    ensures Leads(run[i], own, s') && (forall k | 0 <= k < |own| :: own[k] == Consume(t))
    ensures t < |s'.consumers| && s'.consumers[t] == Idle
  {
    RunKeepsInv(run, actions, i);
    AllMeasured(run[i], t);
    own, s' := ConsumerFinishes(run[i], t);
  }

  // ---- The producer ------------------------------------------------------------------

  /** Every element of the oldest block has been read and flagged. */
  ghost predicate OldestIsDone(s: State) {
    s.used > 0 && forall at: nat | at / BLOCK_SIZE == s.low :: IsFlagged(s, at)
  }

  lemma FlagIs(s: State, k: nat)
    requires k < BLOCK_SIZE
    ensures var at := s.low * BLOCK_SIZE + (BLOCK_SIZE - 1 - k); at / BLOCK_SIZE == s.low && FlagAt(at) == k
  {}

  lemma ScanOne(s: State)
    requires Inv(s) && s.producer.Scan? && OldestIsDone(s)
    ensures Enabled(s, ScanFlag) && s.low in s.blockOf && s.producer.seen < BLOCK_SIZE
    ensures Apply(s, ScanFlag) ==
              if s.producer.seen + 1 < BLOCK_SIZE then s.(producer := Scan(s.producer.seen + 1))
              else s.(producer := Reset(0), blockOf := s.blockOf[s.count := s.blockOf[s.low]], low := s.low + 1)
  {
    var k := s.producer.seen;
    CurrentFacts(s);
    hide ElementsLaw, LocalsLaw, HeadersLaw, WritingLaw;
    FlagIs(s, k);
    assert IsFlagged(s, s.low * BLOCK_SIZE + (BLOCK_SIZE - 1 - k));
  }

  lemma StaysDone(s: State, p: Producer)
    requires OldestIsDone(s)
    ensures OldestIsDone(s.(producer := p))
  {
    var s' := s.(producer := p);
    forall at: nat | at / BLOCK_SIZE == s'.low ensures IsFlagged(s', at) {
      assert IsFlagged(s, at);
    }
  }

  /** The scan of a block that is done finds all its flags set. */
  lemma {:induction false} ScanSucceeds(s: State) returns (own: seq<Action>, s': State)
    requires Inv(s) && s.producer.Scan? && OldestIsDone(s)
    ensures Leads(s, own, s') && Inv(s') && s.low in s.blockOf
    ensures s' == s.(producer := Reset(0), blockOf := s.blockOf[s.count := s.blockOf[s.low]], low := s.low + 1)
    decreases if s.producer.seen < BLOCK_SIZE then BLOCK_SIZE - s.producer.seen else 0
  {
    hide Inv, Enabled, Apply, OldestIsDone;
    ScanOne(s);
    ApplyKeepsInv(s, ScanFlag);
    LeadsByOne(s, ScanFlag);
    own, s' := [ScanFlag], Apply(s, ScanFlag);
    if s.producer.seen + 1 < BLOCK_SIZE {
      StaysDone(s, Scan(s.producer.seen + 1));
      var rest;
      rest, s' := ScanSucceeds(Apply(s, ScanFlag));
      LeadsOn(s, [ScanFlag], Apply(s, ScanFlag), rest, s');
      own := [ScanFlag] + rest;
    }
  }

  /** One of the flags from the k-th on is clear. */
  ghost predicate ClearFrom(s: State, k: nat) {
    s.low in s.blockOf && s.blockOf[s.low] in s.flags && |s.flags[s.blockOf[s.low]]| == BLOCK_SIZE
    && exists j | k <= j < BLOCK_SIZE :: !s.flags[s.blockOf[s.low]][j]
  }

  lemma {:induction false} ScanFails(s: State) returns (own: seq<Action>, s': State)
    requires Inv(s) && s.producer.Scan? && ClearFrom(s, s.producer.seen)
    ensures Leads(s, own, s') && Inv(s') && s' == s.(producer := NotEmpty)
    decreases BLOCK_SIZE - s.producer.seen
  {
    CurrentFacts(s);
    assert Enabled(s, ScanFlag);
    ApplyKeepsInv(s, ScanFlag);
    LeadsByOne(s, ScanFlag);
    var s1 := Apply(s, ScanFlag);
    hide Inv;
    own, s' := [ScanFlag], s1;
    if s.flags[s.blockOf[s.low]][s.producer.seen] {
      assert ClearFrom(s1, s.producer.seen + 1);
      own, s' := ScanFails(s1);
      LeadsOn(s, [ScanFlag], s1, own, s');
      own := [ScanFlag] + own;
    }
  }

  /** The tail block has been chosen, and now it is a started block, with its flags clear and the others' as they
      were. */
  ghost predicate StartedFrom(s: State, s': State) {
    && s'.producer == Ready && s'.count == s.count + 1 && s'.low == s.low && s'.used == s.used && s'.blockOf == s.blockOf
    && s'.tail == s.tail && s'.head == s.head && s'.consumers == s.consumers
    && (forall b | b in s.flags && s.count in s.blockOf && b != s.blockOf[s.count] :: b in s'.flags && s'.flags[b] == s.flags[b])
    && (s.count in s.blockOf && s.blockOf[s.count] in s'.flags && forall k | 0 <= k < |s'.flags[s.blockOf[s.count]]| :: !s'.flags[s.blockOf[s.count]][k])
  }

  lemma WritesAll(s: State) returns (s': State)
    requires Inv(s) && s.producer == Chosen
    ensures Leads(s, [WriteBase, WriteBlock, StoreFront], s') && StartedFrom(s, s')
  {
    CurrentFacts(s);
    assert AllAre(s, s.count, BLOCK_SIZE, false);
    hide Inv, AllAre;
    var s1 := Apply(s, WriteBase);
    var s2 := Apply(s1, WriteBlock);
    s' := Apply(s2, StoreFront);
    LeadsByOne(s, WriteBase);
    LeadsByOne(s1, WriteBlock);
    LeadsByOne(s2, StoreFront);
    LeadsOn(s1, [WriteBlock], s2, [StoreFront], s');
    LeadsOn(s, [WriteBase], s1, [WriteBlock] + [StoreFront], s');
    assert [WriteBase] + ([WriteBlock] + [StoreFront]) == [WriteBase, WriteBlock, StoreFront];
    assert AllAre(s', s.count, BLOCK_SIZE, false);
  }

  lemma {:induction false} StartsBlock(s: State) returns (own: seq<Action>, s': State)
    requires Inv(s) && (s.producer.Reset? || s.producer == Chosen)
    ensures Leads(s, own, s') && StartedFrom(s, s')
    decreases if s.producer.Reset? then BLOCK_SIZE - s.producer.cleared else 0
  {
    CurrentFacts(s);
    if s.producer == Chosen {
      own := [WriteBase, WriteBlock, StoreFront];
      s' := WritesAll(s);
    } else {
      assert Enabled(s, ResetFlag);
      ApplyKeepsInv(s, ResetFlag);
      LeadsByOne(s, ResetFlag);
      var s1 := Apply(s, ResetFlag);
      hide Inv;
      own, s' := StartsBlock(s1);
      LeadsOn(s, [ResetFlag], s1, own, s');
      own := [ResetFlag] + own;
    }
  }

  /** A producer that is left alone at a block start, with every element of its oldest block read and flagged, uses
      that block again. */
  lemma ReusesAlone(run: seq<State>, actions: seq<Action>, i: nat) returns (own: seq<Action>, s': State)
    requires IsRun(run, actions) && i < |run| && run[i].producer == Ready && run[i].tail == run[i].count * BLOCK_SIZE
    requires OldestIsDone(run[i])
    ensures Leads(run[i], own, s') && s'.producer == Ready && run[i].low in run[i].blockOf
    ensures s'.count == run[i].count + 1 && s'.low == run[i].low + 1 && s'.used == run[i].used
    ensures s'.blockOf == run[i].blockOf[run[i].count := run[i].blockOf[run[i].low]]
    ensures s'.tail == run[i].tail && s'.head == run[i].head && s'.consumers == run[i].consumers
  {
    var s := run[i];
    RunKeepsInv(run, actions, i);
    assert s.used > 0;
    hide Inv, OldestIsDone, IsRun;
    StartsScan(s);
    StaysDone(s, Scan(0));
    var s1 := s.(producer := Scan(0));
    var scan, s2 := ScanSucceeds(s1);
    LeadsOn(s, [StartScan], s1, scan, s2);
    own, s' := StartsBlock(s2);
    LeadsOn(s, [StartScan] + scan, s2, own, s');
    own := [StartScan] + scan + own;
  }

  lemma StartsScan(s: State)
    requires Inv(s) && s.producer == Ready && s.tail == s.count * BLOCK_SIZE && s.used > 0
    ensures Leads(s, [StartScan], s.(producer := Scan(0))) && Inv(s.(producer := Scan(0)))
  {
    CurrentFacts(s);
    ApplyKeepsInv(s, StartScan);
    LeadsByOne(s, StartScan);
  }

  /** A producer that is left alone at a block start whose oldest block has an unread element, or that has none, puts a
      new block into the circle, if there is room up to the limit, a slot for it, and a block to be had. */
  lemma InsertsAlone(run: seq<State>, actions: seq<Action>, i: nat, b: Block) returns (own: seq<Action>, s': State)
    requires IsRun(run, actions) && i < |run| && run[i].producer == Ready && run[i].tail == run[i].count * BLOCK_SIZE
    requires run[i].used > 0 ==> ClearFrom(run[i], 0)
    requires BlockStorage.HasRoom(run[i].head, run[i].tail + BLOCK_SIZE, run[i].limit)
    requires |run[i].headers| > 0 && run[i].used < |Current(run[i]).entries|
    requires b in run[i].flags && forall q | q in run[i].blockOf && run[i].low <= q :: run[i].blockOf[q] != b
    ensures Leads(run[i], own, s') && s'.producer == Ready
    ensures s'.count == run[i].count + 1 && s'.low == run[i].low && s'.used == run[i].used + 1
    ensures s'.blockOf == run[i].blockOf[run[i].count := b]
    ensures s'.tail == run[i].tail && s'.head == run[i].head && s'.consumers == run[i].consumers
  {
    var s := run[i];
    RunKeepsInv(run, actions, i);
    own := Refuses(s);
    var s1 := s.(producer := NotEmpty);
    var s2 := s.(producer := Roomy);
    var s3 := Apply(s2, Insert(b));
    PassesAndInserts(s1, s2, s3, b);
    LeadsOn(s, own, s1, [CheckRoom, Insert(b)], s3);
    own := own + [CheckRoom, Insert(b)];
    var rest;
    rest, s' := StartsBlock(s3);
    LeadsOn(s, own, s3, rest, s');
    own := own + rest;
  }

  lemma Refuses(s: State) returns (own: seq<Action>)
    requires Inv(s) && s.producer == Ready && s.tail == s.count * BLOCK_SIZE && (s.used > 0 ==> ClearFrom(s, 0))
    ensures Leads(s, own, s.(producer := NotEmpty)) && Inv(s.(producer := NotEmpty))
  {
    CurrentFacts(s);
    var s1 := Apply(s, StartScan);
    ApplyKeepsInv(s, StartScan);
    LeadsByOne(s, StartScan);
    own := [StartScan];
    if s.used > 0 {
      assert ClearFrom(s1, 0);
      hide Inv;
      var scan, s2 := ScanFails(s1);
      LeadsOn(s, [StartScan], s1, scan, s2);
      own := [StartScan] + scan;
    }
  }

  lemma PassesAndInserts(s1: State, s2: State, s3: State, b: Block)
    requires Inv(s1) && s1.producer == NotEmpty && s2 == s1.(producer := Roomy)
    requires BlockStorage.HasRoom(s1.head, s1.tail + BLOCK_SIZE, s1.limit)
    requires |s1.headers| > 0 && s1.used < |Current(s1).entries|
    requires b in s1.flags && forall q | q in s1.blockOf && s1.low <= q :: s1.blockOf[q] != b
    requires Enabled(s2, Insert(b)) && s3 == Apply(s2, Insert(b))
    ensures Leads(s1, [CheckRoom, Insert(b)], s3) && Inv(s3)
  {
    CurrentFacts(s1);
    BlockStorage.FullIsExact(s1.head, s1.tail, s1.limit);
    assert Enabled(s1, CheckRoom) && Apply(s1, CheckRoom) == s2;
    ApplyKeepsInv(s1, CheckRoom);
    ApplyKeepsInv(s2, Insert(b));
    hide Inv;
    LeadsByOne(s1, CheckRoom);
    LeadsByOne(s2, Insert(b));
    LeadsOn(s1, [CheckRoom], s2, [Insert(b)], s3);
    assert [CheckRoom] + [Insert(b)] == [CheckRoom, Insert(b)];
  }
}
