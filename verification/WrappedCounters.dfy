/** The dequeue protocol as the machine runs it, on counters that wrap.

    `Step` repeats DequeueProtocol's operations with index_t arithmetic: unsigned differences and
    circular_less_than.  The unbounded protocol is mapped onto it by wrapping every index. */
module WrappedCounters {
  import opened Wraparound
  import U = DequeueProtocol

  /** The image of an unbounded state; counts of elements are not indices and stay as they are. */
  function WrapPc(pc: U.Pc): U.Pc {
    match pc
    case LoadOvercommit(max, tail) => U.LoadOvercommit(max, Wrap(tail))
    case LoadOptimistic(max, tail, over) => U.LoadOptimistic(max, Wrap(tail), Wrap(over))
    case TakeTicket(over, desired) => U.TakeTicket(Wrap(over), desired)
    case ReloadTail(over, desired, mine) => U.ReloadTail(Wrap(over), desired, Wrap(mine))
    case _ => pc
  }

  function WrapClaim(c: U.Claim): U.Claim { c.(first := Wrap(c.first)) }

  function WrapState(s: U.State): U.State {
    U.State(Wrap(s.tail), Wrap(s.head), Wrap(s.optimistic), Wrap(s.overcommit),
            seq(|s.pcs|, i requires 0 <= i < |s.pcs| => WrapPc(s.pcs[i])),
            seq(|s.claims|, i requires 0 <= i < |s.claims| => WrapClaim(s.claims[i])))
  }

  /** What a ticket is worth: circular_less_than(0, available) decides. */
  function Settle(available: Index, desired: nat): U.Pc {
    if CircularLess(0, available) then
      var actual := if desired < available then desired else available;
      if actual < desired then U.GiveBack(actual, desired - actual) else U.ClaimHead(actual)
    else
      U.GiveUp(desired)
  }

  /** One atomic operation of consumer t on wrapped counters. */
  function Step(s: U.State, t: nat): U.State
    requires t < |s.pcs|
  {
    match s.pcs[t]
    case Idle => s
    case LoadTail(max) => s.(pcs := s.pcs[t := U.LoadOvercommit(max, s.tail)])
    case LoadOvercommit(max, tail) => s.(pcs := s.pcs[t := U.LoadOptimistic(max, tail, s.overcommit)])
    case LoadOptimistic(max, tail, over) =>
      var available := Sub(tail, Sub(s.optimistic, over));
      s.(pcs := s.pcs[t := if CircularLess(0, available) then U.TakeTicket(over, if available < max then available else max) else U.Idle])
    case TakeTicket(over, desired) =>
      s.(optimistic := Add(s.optimistic, desired), pcs := s.pcs[t := U.ReloadTail(over, desired, s.optimistic)])
    case ReloadTail(over, desired, mine) =>
      s.(pcs := s.pcs[t := Settle(Sub(s.tail, Sub(mine, over)), desired)])
    case GiveBack(actual, excess) =>
      s.(overcommit := Add(s.overcommit, excess), pcs := s.pcs[t := U.ClaimHead(actual)])
    case ClaimHead(actual) =>
      s.(head := Add(s.head, actual), pcs := s.pcs[t := U.Idle], claims := s.claims + [U.Claim(t, s.head, actual)])
    case GiveUp(desired) =>
      s.(overcommit := Add(s.overcommit, desired), pcs := s.pcs[t := U.Idle])
  }

  /** The tail is less than half the index range away from the effective count it is compared with. */
  predicate NearTail(tail: int, count: int, over: int) { -HALF < tail - (count - over) < HALF }

  ghost predicate Comparable(s: U.State, t: nat)
    requires t < |s.pcs|
  {
    match s.pcs[t]
    case LoadOptimistic(_, tail, over) => NearTail(tail, s.optimistic, over)
    case ReloadTail(over, _, mine) => NearTail(s.tail, mine, over)
    case _ => true
  }

  lemma AvailableIsExact(tail: int, count: int, over: int)
    requires NearTail(tail, count, over)
    ensures var available := Sub(Wrap(tail), Sub(Wrap(count), Wrap(over)));
            && (CircularLess(0, available) <==> tail - (count - over) > 0)
            && (tail - (count - over) >= 0 ==> available == tail - (count - over))
  {
    SubIsWrapped(count, over);
    DifferenceIsExact(tail, count - over);
  }

  /** Wrapping the counters changes no decision: the machine's step is the image of the unbounded one. */
  lemma WrappedStep(s: U.State, t: nat)
    requires t < |s.pcs| && Comparable(s, t)
    ensures Step(WrapState(s), t) == WrapState(U.Step(s, t))
  {
    var w, w' := WrapState(s), WrapState(U.Step(s, t));
    var pc := Step(w, t).pcs[t];
    assert pc == WrapPc(U.Step(s, t).pcs[t]) by {
      match s.pcs[t]
      case LoadOptimistic(max, tail, over) => AvailableIsExact(tail, s.optimistic, over);
      case ReloadTail(over, desired, mine) => AvailableIsExact(s.tail, mine, over);
      case _ =>
    }
    assert w.pcs[t := pc] == w'.pcs;
    match s.pcs[t]
    case TakeTicket(_, desired) => WrapAgain(desired, s.optimistic);
    case GiveBack(_, excess) => WrapAgain(excess, s.overcommit);
    case GiveUp(desired) => WrapAgain(desired, s.overcommit);
    case ClaimHead(actual) =>
      WrapAgain(actual, s.head);
      assert w.claims + [U.Claim(t, w.head, actual)] == w'.claims;
    case _ => assert w.claims == w'.claims;
  }

  ghost function Apply(w: U.State, a: U.Action): U.State
    requires U.Enabled(w, a)
  {
    match a
    case Run(t) => Step(w, t)
    case Call(t, max) => w.(pcs := w.pcs[t := U.LoadTail(max)])
    case Publish(count) => w.(tail := Add(w.tail, count))
  }

  lemma WrappedApply(s: U.State, a: U.Action)
    requires U.Enabled(s, a) && (a.Run? ==> Comparable(s, a.t))
    ensures U.Enabled(WrapState(s), a) && Apply(WrapState(s), a) == WrapState(U.Apply(s, a))
  {
    var w, w' := WrapState(s), WrapState(U.Apply(s, a));
    match a
    case Run(t) =>
      WrappedStep(s, t);
    case Call(t, max) =>
      assert w'.pcs == w.pcs[t := U.LoadTail(max)];
      assert w'.claims == w.claims;
    case Publish(count) =>
      WrapAgain(count, s.tail);
      assert w'.pcs == w.pcs && w'.claims == w.claims;
  }

  /** An execution of the unbounded protocol in which every comparison is made within half the index range. */
  ghost predicate IsComparableRun(run: seq<U.State>, actions: seq<U.Action>) {
    && |run| == |actions| + 1 && U.Init(run[0])
    && forall i | 0 <= i < |actions| ::
         U.Enabled(run[i], actions[i]) && run[i + 1] == U.Apply(run[i], actions[i]) && (actions[i].Run? ==> Comparable(run[i], actions[i].t))
  }

  /** Claim safety on the machine: performing the same operations on wrapped counters goes through the
      wrapped states, and each range claimed there is the image of a range below the unbounded tail. */
  lemma WrappedRun(run: seq<U.State>, actions: seq<U.Action>, i: nat)
    requires IsComparableRun(run, actions) && i < |run|
    ensures i < |actions| ==> U.Enabled(WrapState(run[i]), actions[i]) && Apply(WrapState(run[i]), actions[i]) == WrapState(run[i + 1])
    ensures forall c | 0 <= c < |run[i].claims| ::
              && WrapState(run[i]).claims[c].first == Wrap(run[i].claims[c].first)
              && run[i].claims[c].first + run[i].claims[c].count <= run[i].tail
  {
    if i < |actions| {
      WrappedApply(run[i], actions[i]);
    }
    forall j | 0 <= j < |run| - 1 ensures U.Next(run[j], run[j + 1]) {
      assert U.Enabled(run[j], actions[j]);
    }
    var slots, high := U.RunKeepsInv(run, i);
    U.ClaimsTile(run[i].claims, run[i].head, 0);
    U.ClaimsBelowTail(run, i);
  }
}
