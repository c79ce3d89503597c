/** The dequeue protocol, the lookups of an explicit producer's consumers, and the cells of its blocks, as one
    machine: what a thread claims by the counters is what it then looks up, and what it reads is what the producer
    wrote.

    A step is one operation of a thread on the counters, one of a thread at work on what it has claimed, one of
    the producer, or the producer writing an element that it will publish.  `enqueued` and `delivered` are
    history.  Each run is a run of the protocol and of the lookups, so that the results about either hold of it,
    and no part ever stops another. */
module ExplicitConsumers {
  import opened Delivery
  import opened Options
  import opened Wraparound
  import D = DequeueProtocol
  import L = ExplicitLookup
  import R = ExplicitRuns
  import C = Claims

  datatype State<T> = State(counters: D.State, lookup: L.State, cells: map<(Block, nat), T>, enqueued: seq<T>, delivered: map<nat, T>)

  datatype Action<T> = Call(t: nat, max: nat) | Run(t: nat) | Consume(t: nat) | Produce(a: L.Action) | Write(x: T)

  function SpanOf(c: L.Consumer): Option<Span> { if c == L.Idle then None else Some(Span(c.next, c.stop)) }

  function ViewOf(l: L.State): View {
    View(l.head, l.tail, seq(|l.consumers|, t requires 0 <= t < |l.consumers| => SpanOf(l.consumers[t])))
  }

  /** Where element number i goes or is. */
  function Place(l: L.State, i: nat): (Block, nat)
    requires i / BLOCK_SIZE in l.blockOf
  {
    (l.blockOf[i / BLOCK_SIZE], i % BLOCK_SIZE)
  }

  predicate FindsElement<T>(s: State<T>, c: L.Consumer) { c.Read? ==> (c.block, c.next % BLOCK_SIZE) in s.cells }

  /** The producer looks for blocks only when all it has written is published, and writes only into a block that
      is there. */
  ghost predicate Enabled<T>(s: State<T>, a: Action<T>) {
    match a
    case Call(t, max) =>
      && t < |s.counters.pcs| && s.counters.pcs[t] == D.Idle && t < |s.lookup.consumers| && s.lookup.consumers[t] == L.Idle
    case Run(t) =>
      && t < |s.counters.pcs| && s.counters.pcs[t] != D.Idle
      && (s.counters.pcs[t].ClaimHead? ==> L.Enabled(s.lookup, L.Claim(t, s.counters.pcs[t].actual)))
    case Consume(t) =>
      L.Enabled(s.lookup, L.Consume(t)) && s.lookup.consumers[t] != L.Idle && FindsElement(s, s.lookup.consumers[t])
    case Produce(b) =>
      && !b.Consume? && !b.Claim? && L.Enabled(s.lookup, b)
      && (if b.Publish? then s.lookup.tail + b.k <= |s.enqueued| else |s.enqueued| == s.lookup.tail)
    case Write(_) =>
      && s.lookup.producer == L.Ready && |s.enqueued| < s.lookup.count * BLOCK_SIZE
      && |s.enqueued| / BLOCK_SIZE in s.lookup.blockOf && L.Enabled(s.lookup, L.Publish(0))
  }

  ghost function Apply<T>(s: State<T>, a: Action<T>): State<T>
    requires Enabled(s, a)
  {
    match a
    case Call(t, max) => s.(counters := D.Apply(s.counters, D.Call(t, max)))
    case Run(t) =>
      s.(counters := D.Step(s.counters, t),
         lookup := if s.counters.pcs[t].ClaimHead? then L.Apply(s.lookup, L.Claim(t, s.counters.pcs[t].actual)) else s.lookup)
    case Consume(t) =>
      var c := s.lookup.consumers[t];
      s.(lookup := L.Apply(s.lookup, L.Consume(t)),
         delivered := if c.Read? then s.delivered[c.next := s.cells[(c.block, c.next % BLOCK_SIZE)]] else s.delivered)
    case Produce(b) =>
      s.(counters := if b.Publish? then D.Apply(s.counters, D.Publish(b.k)) else s.counters,
         lookup := L.Apply(s.lookup, b))
    case Write(x) =>
      s.(cells := s.cells[Place(s.lookup, |s.enqueued|) := x], enqueued := s.enqueued + [x])
  }

  ghost predicate Init<T>(s: State<T>) {
    && D.Init(s.counters) && L.Init(s.lookup) && |s.counters.pcs| == |s.lookup.consumers|
    && s.enqueued == [] && s.delivered == map[]
  }

  ghost predicate IsRun<T>(run: seq<State<T>>, actions: seq<Action<T>>) {
    && |run| == |actions| + 1 && Init(run[0])
    && forall i | 0 <= i < |actions| :: Enabled(run[i], actions[i]) && run[i + 1] == Apply(run[i], actions[i])
  }

  // ---- Each machine's part -----------------------------------------------------------------

  function Counters<T>(run: seq<State<T>>): seq<D.State> { seq(|run|, i requires 0 <= i < |run| => run[i].counters) }

  function Lookups<T>(run: seq<State<T>>): seq<L.State> { seq(|run|, i requires 0 <= i < |run| => run[i].lookup) }

  /** What a step is to the lookups; one on the counters that claims nothing is a step of an idle consumer. */
  function LookupAction<T>(s: State<T>, a: Action<T>): L.Action {
    match a
    case Call(t, _) => L.Consume(t)
    case Run(t) =>
      if t < |s.counters.pcs| && s.counters.pcs[t].ClaimHead? then L.Claim(t, s.counters.pcs[t].actual) else L.Consume(t)
    case Consume(t) => L.Consume(t)
    case Produce(b) => b
    case Write(_) => L.Publish(0)
  }

  function LookupActions<T>(run: seq<State<T>>, actions: seq<Action<T>>): seq<L.Action>
    requires |run| == |actions| + 1
  {
    seq(|actions|, i requires 0 <= i < |actions| => LookupAction(run[i], actions[i]))
  }

  // ---- The lookups as a view ---------------------------------------------------------------

  lemma ClaimSeen(l: L.State, t: nat, k: nat)
    requires L.Enabled(l, L.Claim(t, k))
    ensures Claims(ViewOf(l), ViewOf(L.Apply(l, L.Claim(t, k))), t, k)
  {
    R.ClaimTakes(l, t, k);
    hide L.Apply, L.Enabled;
  }

  lemma ConsumeSeen(l: L.State, t: nat)
    requires R.Inv(l) && L.Enabled(l, L.Consume(t)) && l.consumers[t] != L.Idle
    ensures var v, v' := ViewOf(l), ViewOf(L.Apply(l, L.Consume(t))); if l.consumers[t].Read? then Reads(v, v', t) else Looks(v, v', t)
  {
    R.StepSpans(l, t);
    R.ConsumeMoves(l, t);
    var v, v' := ViewOf(l), ViewOf(L.Apply(l, L.Consume(t)));
    hide L.Apply, L.Enabled, L.Step, R.Inv;
    assert v'.spans == v.spans[t := v'.spans[t]];
    assert v.spans[t := v.spans[t]] == v.spans;
  }

  lemma ProduceSeen(l: L.State, b: L.Action)
    requires L.Enabled(l, b) && !b.Consume? && !b.Claim?
    ensures Publishes(ViewOf(l), ViewOf(L.Apply(l, b)), if b.Publish? then b.k else 0)
  {
    R.ProduceMoves(l, b);
    hide L.Apply, L.Enabled;
  }

  // ---- The laws ----------------------------------------------------------------------------

  ghost predicate Law<T>(s: State<T>) {
    && Together(s.counters, ViewOf(s.lookup))
    && DeliveryLaw(ViewOf(s.lookup), s.enqueued, s.delivered)
    && CellsLaw(s.cells, s.lookup.blockOf, s.lookup.low, s.enqueued) && |s.enqueued| <= s.lookup.count * BLOCK_SIZE
  }

  /** A claim that the counters have granted is there for the lookups to make. */
  lemma ClaimIsThere<T>(s: State<T>, t: nat)
    requires Law(s) && R.Inv(s.lookup) && t < |s.counters.pcs| && s.counters.pcs[t].ClaimHead?
    requires s.counters.head + s.counters.pcs[t].actual <= s.counters.tail
    ensures L.Enabled(s.lookup, L.Claim(t, s.counters.pcs[t].actual))
  {
    L.CurrentFacts(s.lookup);
    assert ThreadLaw(s.counters, ViewOf(s.lookup), t);
    assert ViewOf(s.lookup).spans[t] == SpanOf(s.lookup.consumers[t]);
  }

  lemma ReadsLive(l: L.State, t: nat)
    requires R.Inv(l) && t < |l.consumers| && l.consumers[t].Read?
    ensures var c := l.consumers[t];
            && l.low * BLOCK_SIZE <= c.next < l.head && c.next / BLOCK_SIZE in l.blockOf && l.blockOf[c.next / BLOCK_SIZE] == c.block
  {
    var c := l.consumers[t];
    assert L.LocalLaw(l, c);
    C.PartIs(c.from, c.stop, 0);
    C.SameBlockNumber(c.from, c.next, c.stop);
    L.PendingIsLive(l, t, c.next);
  }

  lemma NextIsLive(l: L.State, i: nat)
    requires R.Inv(l) && l.producer == L.Ready && l.tail <= i < l.count * BLOCK_SIZE
    ensures i / BLOCK_SIZE in l.blockOf && L.Enabled(l, L.Publish(0))
  {
    L.CurrentFacts(l);
    L.InBlock(l.low, i, l.count);
  }

  lemma BlocksDiffer(l: L.State, q: nat)
    requires R.Inv(l) && q in l.blockOf && q < l.count
    ensures forall r | r in l.blockOf && l.low <= r < q :: l.blockOf[r] != l.blockOf[q]
  {}

  lemma ClaimLeavesBlocks(l: L.State, t: nat, k: nat)
    requires L.Enabled(l, L.Claim(t, k))
    ensures var l' := L.Apply(l, L.Claim(t, k)); l'.blockOf == l.blockOf && l'.count == l.count && l'.low == l.low
  {}

  lemma ConsumeLeavesBlocks(l: L.State, t: nat)
    requires L.Enabled(l, L.Consume(t))
    ensures var l' := L.Apply(l, L.Consume(t)); l'.blockOf == l.blockOf && l'.count == l.count && l'.low == l.low
  {
    hide BlockBase;
  }

  lemma ProduceLeavesBlocks(l: L.State, b: L.Action, n: nat)
    requires R.Inv(l) && L.Enabled(l, b) && !b.Consume? && !b.Claim? && n <= l.count * BLOCK_SIZE
    ensures var l' := L.Apply(l, b);
            && n <= l'.count * BLOCK_SIZE && l.low <= l'.low
            && forall q | q in l'.blockOf && l'.low <= q && q * BLOCK_SIZE < n :: q in l.blockOf && l.blockOf[q] == l'.blockOf[q]
  {
    hide L.Step, L.Reads;
  }

  /** A consumer finds in the cell it reads what was enqueued at its index. */
  lemma ElementIsThere<T>(s: State<T>, t: nat)
    requires Law(s) && R.Inv(s.lookup) && t < |s.lookup.consumers| && s.lookup.consumers[t].Read?
    ensures var c := s.lookup.consumers[t];
            && c.next < s.lookup.head <= |s.enqueued| && FindsElement(s, c)
            && s.cells[(c.block, c.next % BLOCK_SIZE)] == s.enqueued[c.next]
  {
    var c := s.lookup.consumers[t];
    ReadsLive(s.lookup, t);
    hide R.Inv;
    assert HasCell(s.cells, s.lookup.blockOf, s.enqueued, c.next);
  }

  lemma RunKeeps<T>(s: State<T>, t: nat, slots: seq<D.Slot>, high: nat)
    requires Law(s) && R.Inv(s.lookup) && D.Inv(s.counters, slots, high) && Enabled(s, Run(t))
    requires s.counters.pcs[t].ClaimHead? ==> s.counters.head + s.counters.pcs[t].actual <= s.counters.tail
    ensures Law(Apply(s, Run(t)))
  {
    var s', v := Apply(s, Run(t)), ViewOf(s.lookup);
    if s.counters.pcs[t].ClaimHead? {
      var k := s.counters.pcs[t].actual;
      ClaimSeen(s.lookup, t, k);
      ClaimKeeps(s.counters, v, ViewOf(s'.lookup), t);
      ClaimKeepsDelivery(v, ViewOf(s'.lookup), t, k, s.enqueued, s.delivered);
      ClaimLeavesBlocks(s.lookup, t, k);
      hide L.Apply, L.Enabled, R.Inv;
      CellsStay(s.cells, s.lookup.blockOf, s.lookup.low, s'.lookup.blockOf, s'.lookup.low, s.enqueued);
    } else {
      CountKeeps(s.counters, v, t, slots, high);
    }
  }

  lemma ConsumeKeeps<T>(s: State<T>, t: nat)
    requires Law(s) && R.Inv(s.lookup) && Enabled(s, Consume(t))
    ensures Law(Apply(s, Consume(t)))
    ensures s.lookup.consumers[t].Read? ==> s.lookup.consumers[t].next !in s.delivered
  {
    var s', v, c := Apply(s, Consume(t)), ViewOf(s.lookup), s.lookup.consumers[t];
    ConsumeSeen(s.lookup, t);
    ReadKeeps(s.counters, v, ViewOf(s'.lookup), t);
    ConsumeLeavesBlocks(s.lookup, t);
    assert v.spans[t] == SpanOf(c);
    if c.Read? {
      ElementIsThere(s, t);
      ReadKeepsDelivery(v, ViewOf(s'.lookup), t, s.enqueued, s.delivered);
    } else {
      LookKeepsDelivery(v, ViewOf(s'.lookup), t, s.enqueued, s.delivered);
    }
    hide L.Apply, L.Enabled, L.Step, R.Inv;
    CellsStay(s.cells, s.lookup.blockOf, s.lookup.low, s'.lookup.blockOf, s'.lookup.low, s.enqueued);
  }

  lemma ProduceKeeps<T>(s: State<T>, b: L.Action)
    requires Law(s) && R.Inv(s.lookup) && Enabled(s, Produce(b))
    ensures Law(Apply(s, Produce(b)))
  {
    var s', v := Apply(s, Produce(b)), ViewOf(s.lookup);
    var k := if b.Publish? then b.k else 0;
    ProduceSeen(s.lookup, b);
    PublishKeeps(s.counters, v, ViewOf(s'.lookup), k);
    assert D.Apply(s.counters, D.Publish(k)) == s'.counters;
    PublishKeepsDelivery(v, ViewOf(s'.lookup), k, s.enqueued, s.delivered);
    ProduceLeavesBlocks(s.lookup, b, |s.enqueued|);
    hide L.Apply, L.Enabled, R.Inv;
    CellsStay(s.cells, s.lookup.blockOf, s.lookup.low, s'.lookup.blockOf, s'.lookup.low, s.enqueued);
  }

  lemma WriteKeeps<T>(s: State<T>, x: T)
    requires Law(s) && R.Inv(s.lookup) && Enabled(s, Write(x))
    ensures Law(Apply(s, Write(x)))
  {
    WriteKeepsDelivery(ViewOf(s.lookup), s.enqueued, s.delivered, x);
    BlocksDiffer(s.lookup, |s.enqueued| / BLOCK_SIZE);
    hide L.Enabled, R.Inv;
    WriteKeepsCells(s.cells, s.lookup.blockOf, s.lookup.low, s.enqueued, x);
  }

  lemma CallKeepsLaw<T>(s: State<T>, t: nat, max: nat)
    requires Law(s) && Enabled(s, Call(t, max))
    ensures Law(Apply(s, Call(t, max)))
  {
    assert ViewOf(s.lookup).spans[t] == SpanOf(s.lookup.consumers[t]);
    CallKeeps(s.counters, ViewOf(s.lookup), t, max);
  }

  /** Every step is one of the protocol and one of the lookups. */
  lemma StepIsBoth<T>(s: State<T>, a: Action<T>)
    requires Law(s) && R.Inv(s.lookup) && Enabled(s, a)
    ensures D.Next(s.counters, Apply(s, a).counters)
    ensures L.Enabled(s.lookup, LookupAction(s, a)) && Apply(s, a).lookup == L.Apply(s.lookup, LookupAction(s, a))
  {
    L.CurrentFacts(s.lookup);
    var s' := Apply(s, a);
    match a
    case Call(t, max) => assert D.Enabled(s.counters, D.Call(t, max));
    case Run(t) =>
      assert ThreadLaw(s.counters, ViewOf(s.lookup), t) && ViewOf(s.lookup).spans[t] == SpanOf(s.lookup.consumers[t]);
      assert D.Enabled(s.counters, D.Run(t));
    case Consume(_) => NoneNext(s.counters);
    case Produce(b) =>
      var k := if b.Publish? then b.k else 0;
      assert D.Enabled(s.counters, D.Publish(k)) && D.Apply(s.counters, D.Publish(k)) == s'.counters;
    case Write(_) => NoneNext(s.counters);
  }

  lemma NoneNext(d: D.State)
    ensures D.Next(d, d)
  {
    assert D.Enabled(d, D.Publish(0)) && D.Apply(d, D.Publish(0)) == d;
  }

  lemma StepKeepsLaw<T>(s: State<T>, a: Action<T>, slots: seq<D.Slot>, high: nat)
    requires Law(s) && R.Inv(s.lookup) && D.Inv(s.counters, slots, high) && Enabled(s, a)
    requires a.Run? && s.counters.pcs[a.t].ClaimHead? ==> s.counters.head + s.counters.pcs[a.t].actual <= s.counters.tail
    ensures Law(Apply(s, a))
  {
    hide Law, D.Inv, R.Inv, Apply;
    match a
    case Call(t, max) => CallKeepsLaw(s, t, max);
    case Run(t) => RunKeeps(s, t, slots, high);
    case Consume(t) => ConsumeKeeps(s, t);
    case Produce(b) => ProduceKeeps(s, b);
    case Write(x) => WriteKeeps(s, x);
  }
}
