/** The four counters through which consumers claim elements without a compare-exchange.

    One producer publishes `tail`; any number of consumers run dequeue and dequeue_bulk.
    A consumer loads a snapshot of `overcommit`, takes a ticket from `optimistic`, and only
    then decides how many elements its ticket is worth, although the snapshot may be stale. */
module DequeueProtocol {
  import opened Counting

  /** A claimed range [first, first + count). */
  datatype Claim = Claim(thread: nat, first: nat, count: nat)

  datatype Pc =
    | Idle
    | LoadTail(max: nat)
    | LoadOvercommit(max: nat, tail: nat)
    | LoadOptimistic(max: nat, tail: nat, overcommit: nat)
    | TakeTicket(overcommit: nat, desired: nat)
    | ReloadTail(overcommit: nat, desired: nat, mine: nat)
    | GiveBack(actual: nat, excess: nat)
    | ClaimHead(actual: nat)
    | GiveUp(desired: nat)

  datatype State = State(tail: nat, head: nat, optimistic: nat, overcommit: nat, pcs: seq<Pc>, claims: seq<Claim>)

  function Min(a: nat, b: nat): nat { if a < b then a else b }

  /** What a ticket is worth once the tail has been loaded again. */
  function Settle(available: int, desired: nat): Pc {
    if available > 0 then
      var actual := Min(desired, available);
      if actual < desired then GiveBack(actual, desired - actual) else ClaimHead(actual)
    else
      GiveUp(desired)
  }

  /** One atomic operation of consumer t.  dequeue is dequeue_bulk with max 1: it tests
      `optimistic - overcommit < tail` and adds 1, which is what min(available, 1) comes to. */
  function Step(s: State, t: nat): State
    requires t < |s.pcs|
  {
    match s.pcs[t]
    case Idle => s
    case LoadTail(max) => s.(pcs := s.pcs[t := LoadOvercommit(max, s.tail)])
    case LoadOvercommit(max, tail) => s.(pcs := s.pcs[t := LoadOptimistic(max, tail, s.overcommit)])
    case LoadOptimistic(max, tail, over) =>
      var available := tail - (s.optimistic - over);
      s.(pcs := s.pcs[t := if available > 0 then TakeTicket(over, Min(available, max)) else Idle])
    case TakeTicket(over, desired) =>
      s.(optimistic := s.optimistic + desired, pcs := s.pcs[t := ReloadTail(over, desired, s.optimistic)])
    case ReloadTail(over, desired, mine) =>
      s.(pcs := s.pcs[t := Settle(s.tail - (mine - over), desired)])
    case GiveBack(actual, excess) =>
      s.(overcommit := s.overcommit + excess, pcs := s.pcs[t := ClaimHead(actual)])
    case ClaimHead(actual) =>
      s.(head := s.head + actual, pcs := s.pcs[t := Idle], claims := s.claims + [Claim(t, s.head, actual)])
    case GiveUp(desired) =>
      s.(overcommit := s.overcommit + desired, pcs := s.pcs[t := Idle])
  }

  datatype Action = Run(t: nat) | Call(t: nat, max: nat) | Publish(count: nat)

  ghost predicate Enabled(s: State, a: Action) {
    match a
    case Run(t) => t < |s.pcs|
    case Call(t, _) => t < |s.pcs| && s.pcs[t].Idle?
    case Publish(_) => true
  }

  ghost function Apply(s: State, a: Action): State
    requires Enabled(s, a)
  {
    match a
    case Run(t) => Step(s, t)
    case Call(t, max) => s.(pcs := s.pcs[t := LoadTail(max)])
    case Publish(count) => s.(tail := s.tail + count)
  }

  ghost predicate Init(s: State) {
    && s.tail == 0 && s.head == 0 && s.optimistic == 0 && s.overcommit == 0 && s.claims == []
    && forall t | 0 <= t < |s.pcs| :: s.pcs[t].Idle?
  }

  ghost predicate Next(s: State, s': State) {
    exists a :: Enabled(s, a) && s' == Apply(s, a)
  }

  ghost predicate IsRun(run: seq<State>) {
    run != [] && Init(run[0]) && forall i | 0 <= i < |run| - 1 :: Next(run[i], run[i + 1])
  }

  // ---- The ticket log ----------------------------------------------------------------

  /** What became of each position of `optimistic`: still with its thread, turned into a claim, or
      given back to `overcommit` (now or soon). */
  datatype Slot = Open(t: nat) | Won | Lost

  function WonWeight(): Slot -> nat { (x: Slot) => if x.Won? then 1 else 0 }
  function LostWeight(): Slot -> nat { (x: Slot) => if x.Lost? then 1 else 0 }

  function ClaimWeight(): Pc -> nat {
    (pc: Pc) => if pc.GiveBack? || pc.ClaimHead? then pc.actual else 0
  }
  function ReturnWeight(): Pc -> nat {
    (pc: Pc) => if pc.GiveBack? then pc.excess else if pc.GiveUp? then pc.desired else 0
  }

  /** Lost positions among the first k. */
  function LostBelow(slots: seq<Slot>, k: nat): nat
    requires k <= |slots|
  {
    Sum(slots[..k], LostWeight())
  }

  /** The thread's ticket is exactly the open slots that bear its name, and its snapshot of overcommit
      counts only positions lost below its ticket. */
  ghost predicate TicketLaw(slots: seq<Slot>, t: nat, pc: Pc) {
    && (forall p | 0 <= p < |slots| && slots[p] == Open(t) :: pc.ReloadTail? && pc.mine <= p < pc.mine + pc.desired)
    && match pc
       case LoadOptimistic(_, _, over) => over <= LostBelow(slots, |slots|)
       case TakeTicket(over, _) => over <= LostBelow(slots, |slots|)
       case ReloadTail(over, desired, mine) =>
         && mine + desired <= |slots|
         && over <= LostBelow(slots, mine)
         && (forall p | mine <= p < mine + desired :: slots[p] == Open(t))
       case _ => true
  }

  /** The heart of the matter: beyond `high` nothing has been won, and below it at most `tail`
      positions are not lost. */
  ghost predicate HighLaw(slots: seq<Slot>, high: nat, tail: nat) {
    && high <= |slots|
    && high <= tail + LostBelow(slots, high)
    && (forall p | high <= p < |slots| :: !slots[p].Won?)
  }

  /** The claims lie end to end from index 0 to the head. */
  ghost predicate ClaimsLaw(claims: seq<Claim>, head: nat) {
    if claims == [] then head == 0
    else
      var last := claims[|claims| - 1];
      last.first + last.count == head && ClaimsLaw(claims[..|claims| - 1], last.first)
  }

  ghost predicate TicketsLaw(slots: seq<Slot>, pcs: seq<Pc>) {
    forall t | 0 <= t < |pcs| :: TicketLaw(slots, t, pcs[t])
  }

  ghost predicate Inv(s: State, slots: seq<Slot>, high: nat) {
    && |slots| == s.optimistic
    && Sum(slots, WonWeight()) == s.head + Sum(s.pcs, ClaimWeight())
    && Sum(slots, LostWeight()) == s.overcommit + Sum(s.pcs, ReturnWeight())
    && (forall p | 0 <= p < |slots| && slots[p].Open? :: slots[p].t < |s.pcs|)
    && TicketsLaw(slots, s.pcs)
    && HighLaw(slots, high, s.tail)
    && ClaimsLaw(s.claims, s.head)
  }

  /** The thread's ticket is settled: the first `won` positions are won, the rest lost. */
  function Settled(slots: seq<Slot>, mine: nat, won: nat, lost: nat): (r: seq<Slot>)
    requires mine + won + lost <= |slots|
    ensures |r| == |slots|
    ensures forall p | 0 <= p < |slots| :: r[p] == (if p < mine || mine + won + lost <= p then slots[p] else if p < mine + won then Won else Lost)
  {
    slots[..mine] + seq(won, _ => Won) + seq(lost, _ => Lost) + slots[mine + won + lost..]
  }

  lemma SumOfThree(a: seq<Slot>, b: seq<Slot>, c: seq<Slot>, weight: Slot -> nat)
    ensures Sum(a + b + c, weight) == Sum(a, weight) + Sum(b, weight) + Sum(c, weight)
  {
    SumConcat(a + b, c, weight);
    SumConcat(a, b, weight);
  }

  lemma DecidedSum(won: nat, lost: nat, weight: Slot -> nat)
    ensures Sum(seq(won, _ => Won) + seq(lost, _ => Lost), weight) == won * weight(Won) + lost * weight(Lost)
  {
    SumConcat(seq(won, _ => Won), seq(lost, _ => Lost), weight);
    SumUniform(seq(won, _ => Won), weight(Won), weight);
    SumUniform(seq(lost, _ => Lost), weight(Lost), weight);
  }

  lemma SettledParts(slots: seq<Slot>, mine: nat, won: nat, lost: nat)
    requires mine + won + lost <= |slots|
    ensures slots == slots[..mine] + slots[mine..mine + won + lost] + slots[mine + won + lost..]
    ensures Settled(slots, mine, won, lost) == slots[..mine] + (seq(won, _ => Won) + seq(lost, _ => Lost)) + slots[mine + won + lost..]
  {}

  lemma SettledSum(slots: seq<Slot>, mine: nat, won: nat, lost: nat, t: nat, weight: Slot -> nat)
    requires mine + won + lost <= |slots|
    requires forall p | mine <= p < mine + won + lost :: slots[p] == Open(t)
    requires weight(Open(t)) == 0
    ensures Sum(Settled(slots, mine, won, lost), weight) == Sum(slots, weight) + won * weight(Won) + lost * weight(Lost)
  {
    var end := mine + won + lost;
    var decided := seq(won, _ => Won) + seq(lost, _ => Lost);
    DecidedSum(won, lost, weight);
    SumZero(slots[mine..end], weight);
    SumOfThree(slots[..mine], slots[mine..end], slots[end..], weight);
    SumOfThree(slots[..mine], decided, slots[end..], weight);
    SettledParts(slots, mine, won, lost);
  }

  lemma SettledLosesMore(slots: seq<Slot>, mine: nat, won: nat, lost: nat, t: nat, k: nat)
    requires mine + won + lost <= |slots| && k <= |slots|
    requires forall p | mine <= p < mine + won + lost :: slots[p] == Open(t)
    ensures LostBelow(slots, k) <= LostBelow(Settled(slots, mine, won, lost), k)
  {
    SumMonotone(slots[..k], Settled(slots, mine, won, lost)[..k], LostWeight());
  }

  /** Deciding a ticket keeps the bound, wherever the ticket lies: a ticket past `high` counts what
      was lost before it through its snapshot, one below `high` is already counted. */
  lemma SettleKeepsHigh(slots: seq<Slot>, high: nat, tail: nat, over: nat, mine: nat, won: nat, lost: nat, t: nat)
    returns (high': nat)
    requires HighLaw(slots, high, tail)
    requires mine + won + lost <= |slots| && forall p | mine <= p < mine + won + lost :: slots[p] == Open(t)
    requires over <= LostBelow(slots, mine)
    requires won > 0 ==> won <= tail - (mine - over)
    ensures HighLaw(Settled(slots, mine, won, lost), high', tail)
  {
    var r := Settled(slots, mine, won, lost);
    if won > 0 && mine + won > high {
      high' := mine + won;
      assert r[..high'] == r[..mine] + r[mine..high'];
      SumConcat(r[..mine], r[mine..high'], LostWeight());
      assert r[..mine] == slots[..mine];
    } else {
      high' := high;
      SettledLosesMore(slots, mine, won, lost, t, high);
    }
  }

  lemma SettleKeepsTickets(slots: seq<Slot>, pcs: seq<Pc>, t: nat, pc: Pc, mine: nat, won: nat, lost: nat)
    requires t < |pcs| && TicketsLaw(slots, pcs)
    requires pcs[t].ReloadTail? && pcs[t].mine == mine && pcs[t].desired == won + lost && mine + won + lost <= |slots|
    requires pc.GiveBack? || pc.ClaimHead? || pc.GiveUp?
    ensures TicketsLaw(Settled(slots, mine, won, lost), pcs[t := pc])
  {
    var r, pcs' := Settled(slots, mine, won, lost), pcs[t := pc];
    assert TicketLaw(slots, t, pcs[t]);
    forall u | 0 <= u < |pcs'| && u != t ensures TicketLaw(r, u, pcs'[u]) {
      assert TicketLaw(slots, u, pcs[u]);
      SettledLosesMore(slots, mine, won, lost, t, |slots|);
      if pcs[u].ReloadTail? {
        SettledLosesMore(slots, mine, won, lost, t, pcs[u].mine);
      }
    }
    assert TicketLaw(r, t, pc);
  }

  lemma ReloadKeepsInv(s: State, t: nat, slots: seq<Slot>, high: nat) returns (slots': seq<Slot>, high': nat)
    requires Inv(s, slots, high) && t < |s.pcs| && s.pcs[t].ReloadTail?
    ensures Inv(Step(s, t), slots', high')
  {
    var ReloadTail(over, desired, mine) := s.pcs[t];
    var pc := Settle(s.tail - (mine - over), desired);
    var won := if pc.GiveUp? then 0 else pc.actual;
    var lost := desired - won;
    assert TicketLaw(slots, t, s.pcs[t]);
    slots' := Settled(slots, mine, won, lost);
    SettledSum(slots, mine, won, lost, t, WonWeight());
    SettledSum(slots, mine, won, lost, t, LostWeight());
    SumUpdate(s.pcs, t, pc, ClaimWeight());
    SumUpdate(s.pcs, t, pc, ReturnWeight());
    assert ClaimWeight()(pc) == won && ReturnWeight()(pc) == lost;
    SettleKeepsTickets(slots, s.pcs, t, pc, mine, won, lost);
    high' := SettleKeepsHigh(slots, high, s.tail, over, mine, won, lost, t);
  }

  lemma TicketKeepsTickets(slots: seq<Slot>, pcs: seq<Pc>, t: nat, desired: nat, over: nat)
    requires t < |pcs| && pcs[t] == TakeTicket(over, desired) && TicketsLaw(slots, pcs)
    ensures TicketsLaw(slots + seq(desired, _ => Open(t)), pcs[t := ReloadTail(over, desired, |slots|)])
  {
    var slots', pcs' := slots + seq(desired, _ => Open(t)), pcs[t := ReloadTail(over, desired, |slots|)];
    SumConcat(slots, seq(desired, _ => Open(t)), LostWeight());
    assert slots'[..|slots'|] == slots' && slots[..|slots|] == slots && slots'[..|slots|] == slots;
    forall u | 0 <= u < |pcs'| ensures TicketLaw(slots', u, pcs'[u]) {
      assert TicketLaw(slots, u, pcs[u]) && TicketLaw(slots, t, pcs[t]);
      if u != t && pcs[u].ReloadTail? {
        assert slots'[..pcs[u].mine] == slots[..pcs[u].mine];
      }
    }
  }

  lemma TicketKeepsInv(s: State, t: nat, slots: seq<Slot>, high: nat) returns (slots': seq<Slot>)
    requires Inv(s, slots, high) && t < |s.pcs| && s.pcs[t].TakeTicket?
    ensures Inv(Step(s, t), slots', high)
  {
    var TakeTicket(over, desired) := s.pcs[t];
    var ticket := seq(desired, _ => Open(t));
    slots' := slots + ticket;
    SumConcat(slots, ticket, WonWeight());
    SumConcat(slots, ticket, LostWeight());
    SumUniform(ticket, 0, WonWeight());
    SumUniform(ticket, 0, LostWeight());
    SumUpdate(s.pcs, t, Step(s, t).pcs[t], ClaimWeight());
    SumUpdate(s.pcs, t, Step(s, t).pcs[t], ReturnWeight());
    TicketKeepsTickets(slots, s.pcs, t, desired, over);
    assert slots'[..high] == slots[..high];
  }

  /** The remaining operations leave the ticket log alone. */
  lemma OtherKeepsInv(s: State, t: nat, slots: seq<Slot>, high: nat)
    requires Inv(s, slots, high) && t < |s.pcs| && !s.pcs[t].ReloadTail? && !s.pcs[t].TakeTicket?
    ensures Inv(Step(s, t), slots, high)
  {
    var pc := Step(s, t).pcs[t];
    SumUpdate(s.pcs, t, pc, ClaimWeight());
    SumUpdate(s.pcs, t, pc, ReturnWeight());
    assert slots[..|slots|] == slots;
    assert TicketLaw(slots, t, s.pcs[t]);
    assert TicketLaw(slots, t, pc);
  }

  lemma NextKeepsInv(s: State, s': State, slots: seq<Slot>, high: nat) returns (slots': seq<Slot>, high': nat)
    requires Inv(s, slots, high) && Next(s, s')
    ensures Inv(s', slots', high')
  {
    var a :| Enabled(s, a) && s' == Apply(s, a);
    slots', high' := slots, high;
    match a
    case Run(t) =>
      if s.pcs[t].ReloadTail? {
        slots', high' := ReloadKeepsInv(s, t, slots, high);
      } else if s.pcs[t].TakeTicket? {
        slots' := TicketKeepsInv(s, t, slots, high);
      } else {
        OtherKeepsInv(s, t, slots, high);
      }
    case Call(t, max) =>
      SumUpdate(s.pcs, t, LoadTail(max), ClaimWeight());
      SumUpdate(s.pcs, t, LoadTail(max), ReturnWeight());
      assert TicketLaw(slots, t, s.pcs[t]);
    case Publish(_) =>
  }

  lemma {:induction false} RunKeepsInv(run: seq<State>, i: nat) returns (slots: seq<Slot>, high: nat)
    requires IsRun(run) && i < |run|
    ensures Inv(run[i], slots, high)
  {
    if i == 0 {
      slots, high := [], 0;
      SumZero(run[0].pcs, ClaimWeight());
      SumZero(run[0].pcs, ReturnWeight());
    } else {
      slots, high := RunKeepsInv(run, i - 1);
      slots, high := NextKeepsInv(run[i - 1], run[i], slots, high);
    }
  }

  lemma {:induction false} WonOrLost(slots: seq<Slot>)
    ensures Sum(slots, WonWeight()) + Sum(slots, LostWeight()) <= |slots|
  {
    if slots != [] {
      WonOrLost(slots[1..]);
    }
  }

  lemma WonFitsTail(slots: seq<Slot>, high: nat, tail: nat)
    requires HighLaw(slots, high, tail)
    ensures Sum(slots, WonWeight()) <= tail
  {
    assert slots == slots[..high] + slots[high..];
    SumConcat(slots[..high], slots[high..], WonWeight());
    SumUniform(slots[high..], 0, WonWeight());
    WonOrLost(slots[..high]);
  }

  // ---- What the protocol promises ----------------------------------------------------

  /** Claim safety: whatever stale snapshots the consumers test against, the claims made together
      with those already decided never pass the published tail. */
  lemma ClaimsBelowTail(run: seq<State>, i: nat)
    requires IsRun(run) && i < |run|
    ensures run[i].head + Sum(run[i].pcs, ClaimWeight()) <= run[i].tail
  {
    var slots, high := RunKeepsInv(run, i);
    WonFitsTail(slots, high, run[i].tail);
  }

  ghost predicate Covers(c: Claim, index: nat) { c.first <= index < c.first + c.count }

  ghost predicate Claimed(claims: seq<Claim>, index: nat) {
    exists c | 0 <= c < |claims| :: Covers(claims[c], index)
  }

  lemma {:induction false} ClaimsTile(claims: seq<Claim>, head: nat, index: nat)
    requires ClaimsLaw(claims, head)
    ensures Claimed(claims, index) <==> index < head
    ensures forall c | 0 <= c < |claims| :: claims[c].first + claims[c].count <= head
    ensures forall c, d | 0 <= c < d < |claims| :: claims[c].first + claims[c].count <= claims[d].first
  {
    if claims != [] {
      var n := |claims| - 1;
      ClaimsTile(claims[..n], claims[n].first, index);
      assert claims == claims[..n] + [claims[n]];
      assert Claimed(claims, index) <==> Claimed(claims[..n], index) || Covers(claims[n], index);
    }
  }

  /** The claimed ranges are disjoint, and together they are exactly the indices below the head; so
      every claimed index lies below the published tail. */
  lemma ClaimsPartitionHead(run: seq<State>, i: nat, index: nat)
    requires IsRun(run) && i < |run|
    ensures Claimed(run[i].claims, index) <==> index < run[i].head
    ensures Claimed(run[i].claims, index) ==> index < run[i].tail
    ensures forall c, d | 0 <= c < d < |run[i].claims| :: run[i].claims[c].first + run[i].claims[c].count <= run[i].claims[d].first
  {
    var slots, high := RunKeepsInv(run, i);
    ClaimsBelowTail(run, i);
    ClaimsTile(run[i].claims, run[i].head, index);
  }

  /** Weight of a ticket not yet settled with head or overcommit. */
  function UnresolvedWeight(): Pc -> nat {
    (pc: Pc) => match pc
    case ReloadTail(_, desired, _) => desired
    case GiveBack(actual, excess) => actual + excess
    case ClaimHead(actual) => actual
    case GiveUp(desired) => desired
    case _ => 0
  }

  predicate Balanced(s: State) {
    s.optimistic == s.head + s.overcommit + Sum(s.pcs, UnresolvedWeight())
  }

  lemma StepWeighs(s: State, t: nat)
    requires t < |s.pcs|
    ensures var s' := Step(s, t);
            && s'.pcs == s.pcs[t := s'.pcs[t]]
            && s'.optimistic + s.head + s.overcommit + UnresolvedWeight()(s.pcs[t])
               == s.optimistic + s'.head + s'.overcommit + UnresolvedWeight()(s'.pcs[t])
  {}

  lemma NextKeepsBalance(s: State, s': State)
    requires Next(s, s') && Balanced(s)
    ensures Balanced(s')
  {
    var a :| Enabled(s, a) && s' == Apply(s, a);
    match a
    case Publish(_) =>
    case Call(t, max) => SumUpdate(s.pcs, t, LoadTail(max), UnresolvedWeight());
    case Run(t) =>
      StepWeighs(s, t);
      SumUpdate(s.pcs, t, s'.pcs[t], UnresolvedWeight());
  }

  /** Counter balance: tickets are conserved. */
  lemma {:induction false} CounterBalance(run: seq<State>, i: nat)
    requires IsRun(run) && i < |run|
    ensures Balanced(run[i])
  {
    if i == 0 {
      SumZero(run[0].pcs, UnresolvedWeight());
    } else {
      CounterBalance(run, i - 1);
      NextKeepsBalance(run[i - 1], run[i]);
    }
  }

  function Alone(s: State, t: nat, steps: nat): State
    requires t < |s.pcs|
    ensures |Alone(s, t, steps).pcs| == |s.pcs|
    decreases steps
  {
    if steps == 0 then s else Alone(Step(s, t), t, steps - 1)
  }

  /** With no other call in flight a dequeue succeeds exactly when the sub-queue is non-empty, and a
      bulk dequeue takes as much as there is: no failed attempt has hidden an element. */
  lemma LoneDequeue(run: seq<State>, i: nat, t: nat, max: nat)
    requires IsRun(run) && i < |run| && t < |run[i].pcs|
    requires forall u | 0 <= u < |run[i].pcs| :: run[i].pcs[u].Idle?
    ensures run[i].head <= run[i].tail
    ensures var s := run[i];
            var s' := Alone(Apply(s, Call(t, max)), t, 6);
            s'.pcs[t].Idle? && s'.head == s.head + Min(max, s.tail - s.head) && s'.optimistic - s'.overcommit == s'.head && s'.tail == s.tail
  {
    var s := run[i];
    ClaimsBelowTail(run, i);
    CounterBalance(run, i);
    SumZero(s.pcs, ClaimWeight());
    SumZero(s.pcs, UnresolvedWeight());
    var a := Apply(s, Call(t, max));
    assert Alone(a, t, 6) == Alone(Step(Step(Step(a, t), t), t), t, 3);
  }

  // ---- What a thread knows of the tail ------------------------------------------------------

  /** A tail that a thread has loaded has been reached, and past the first test something has been published. */
  ghost predicate SeenLaw(s: State, pc: Pc) {
    match pc
    case Idle => true
    case LoadTail(_) => true
    case LoadOvercommit(_, tail) => tail <= s.tail
    case LoadOptimistic(_, tail, _) => tail <= s.tail
    case _ => s.tail > 0
  }

  lemma StepSees(s: State, t: nat, slots: seq<Slot>, high: nat)
    requires Inv(s, slots, high) && t < |s.pcs| && SeenLaw(s, s.pcs[t])
    ensures SeenLaw(Step(s, t), Step(s, t).pcs[t])
  {
    if s.pcs[t].LoadOptimistic? {
      assert TicketLaw(slots, t, s.pcs[t]);
      assert slots[..|slots|] == slots;
      SumOfFlags(slots, LostWeight());
    }
  }

  /** A call with a maximum above zero never claims nothing. */
  predicate AsksSome(pc: Pc) {
    match pc
    case LoadTail(max) => max > 0
    case LoadOvercommit(max, _) => max > 0
    case LoadOptimistic(max, _, _) => max > 0
    case TakeTicket(_, desired) => desired > 0
    case ReloadTail(_, desired, _) => desired > 0
    case GiveBack(actual, _) => actual > 0
    case ClaimHead(actual) => actual > 0
    case _ => true
  }

  lemma StepAsks(s: State, t: nat)
    requires t < |s.pcs| && AsksSome(s.pcs[t])
    ensures AsksSome(Step(s, t).pcs[t])
  {}

  lemma ClaimFits(run: seq<State>, i: nat, t: nat)
    requires IsRun(run) && i < |run| && t < |run[i].pcs| && run[i].pcs[t].ClaimHead?
    ensures run[i].head + run[i].pcs[t].actual <= run[i].tail
  {
    ClaimsBelowTail(run, i);
    SumMember(run[i].pcs, t, ClaimWeight());
  }

  /** Only the thread that steps moves, and only its claim moves the head. */
  lemma StepMoves(s: State, t: nat)
    requires t < |s.pcs|
    ensures var s' := Step(s, t);
            && s'.tail == s.tail && |s'.pcs| == |s.pcs| && (forall u | 0 <= u < |s.pcs| && u != t :: s'.pcs[u] == s.pcs[u])
            && (s.pcs[t].ClaimHead? ==> s'.head == s.head + s.pcs[t].actual && s'.pcs[t] == Idle && s'.claims == s.claims + [Claim(t, s.head, s.pcs[t].actual)])
            && (!s.pcs[t].ClaimHead? ==> s'.head == s.head && s'.claims == s.claims)
  {}
}
