/** What one dequeue or dequeue_bulk gets while any number of others run beside it. */
module DequeueCalls {
  import opened DequeueProtocol

  function Above(x: int): nat { if x > 0 then x else 0 }

  /** The elements that the claims of thread t come to. */
  function Gained(claims: seq<Claim>, t: nat): nat {
    if claims == [] then 0
    else
      var last := claims[|claims| - 1];
      Gained(claims[..|claims| - 1], t) + if last.thread == t then last.count else 0
  }

  lemma GainedMore(claims: seq<Claim>, c: Claim, t: nat)
    ensures Gained(claims + [c], t) == Gained(claims, t) + if c.thread == t then c.count else 0
  {
    assert (claims + [c])[..|claims|] == claims;
  }

  /** When a thread has loaded the tail again its ticket is worth the elements that the tail is beyond the effective
      count, up to what it drew; just these it goes on to claim, and just the rest it gives back. */
  lemma TicketIsWorth(run: seq<State>, i: nat, t: nat)
    requires IsRun(run) && i + 1 < |run| && t < |run[i].pcs| && t < |run[i + 1].pcs|
    requires run[i].pcs[t].ReloadTail? && run[i + 1].pcs[t] != run[i].pcs[t]
    ensures var ReloadTail(over, desired, mine) := run[i].pcs[t];
            var actual := Min(desired, Above(run[i].tail - (mine - over)));
            && ClaimWeight()(run[i + 1].pcs[t]) == actual
            && ReturnWeight()(run[i + 1].pcs[t]) == desired - actual
            && UnresolvedWeight()(run[i + 1].pcs[t]) == desired
  {
    assert Next(run[i], run[i + 1]);
  }

  /** Position p of a ticket is given up only if the tail has not passed its index, as far as the thread knows. */
  lemma LostOnlyBeyondTail(run: seq<State>, i: nat, t: nat, p: nat)
    requires IsRun(run) && i + 1 < |run| && t < |run[i].pcs| && t < |run[i + 1].pcs|
    requires run[i].pcs[t].ReloadTail? && run[i + 1].pcs[t] != run[i].pcs[t]
    requires run[i].pcs[t].mine <= p < run[i].pcs[t].mine + run[i].pcs[t].desired
    ensures p - run[i].pcs[t].mine < ClaimWeight()(run[i + 1].pcs[t]) <==> p - run[i].pcs[t].overcommit < run[i].tail
  {
    TicketIsWorth(run, i, t);
  }

  // ---- A whole call ------------------------------------------------------------------

  /** The moments of a call at which it loaded the tail, the overcommit and the optimistic count, drew its ticket,
      and loaded the tail again. */
  datatype Moments = Moments(tail: nat, overcommit: nat, optimistic: nat, ticket: nat, tailAgain: nat)

  ghost predicate InOrder(m: Moments, from: nat, to: nat) {
    from <= m.tail < m.overcommit < m.optimistic < m.ticket < m.tailAgain < to
  }

  /** What the call may ask for, by the counters as it saw them. */
  function Asked(run: seq<State>, m: Moments, max: nat): nat
    requires m.tail < |run| && m.overcommit < |run| && m.optimistic < |run|
  {
    Min(Above(run[m.tail].tail - (run[m.optimistic].optimistic - run[m.overcommit].overcommit)), max)
  }

  /** What it gets. */
  function Worth(run: seq<State>, m: Moments, max: nat): nat
    requires m.tail < |run| && m.overcommit < |run| && m.optimistic < |run| && m.ticket < |run| && m.tailAgain < |run|
  {
    Min(Asked(run, m, max), Above(run[m.tailAgain].tail - (run[m.ticket].optimistic - run[m.overcommit].overcommit)))
  }

  /** How far a call of thread t that began at state i has come by state j. */
  ghost predicate Reached(run: seq<State>, i: nat, j: nat, t: nat, max: nat, m: Moments)
    requires i <= j < |run| && t < |run[j].pcs|
  {
    var s, before := run[j], Gained(run[i].claims, t);
    match s.pcs[t]
    case LoadTail(x) => x == max && Gained(s.claims, t) == before
    case LoadOvercommit(x, tail) =>
      x == max && Gained(s.claims, t) == before && i <= m.tail < j && tail == run[m.tail].tail
    case LoadOptimistic(x, tail, over) =>
      && x == max && Gained(s.claims, t) == before && i <= m.tail < m.overcommit < j
      && tail == run[m.tail].tail && over == run[m.overcommit].overcommit
    case TakeTicket(over, desired) =>
      && Gained(s.claims, t) == before && i <= m.tail < m.overcommit < m.optimistic < j
      && over == run[m.overcommit].overcommit && desired == Asked(run, m, max)
    case ReloadTail(over, desired, mine) =>
      && Gained(s.claims, t) == before && i <= m.tail < m.overcommit < m.optimistic < m.ticket < j
      && over == run[m.overcommit].overcommit && desired == Asked(run, m, max) && mine == run[m.ticket].optimistic
    case Idle =>
      || (i <= m.tail < m.overcommit < m.optimistic < j && Asked(run, m, max) == 0 && Gained(s.claims, t) == before
          && run[m.tail].tail <= run[m.optimistic].optimistic - run[m.overcommit].overcommit)
      || (InOrder(m, i, j) && Gained(s.claims, t) == before + Worth(run, m, max))
    case pc => InOrder(m, i, j) && Gained(s.claims, t) + ClaimWeight()(pc) == before + Worth(run, m, max)
  }

  /** Whatever another thread does, the call stays where it is. */
  lemma OthersStep(run: seq<State>, i: nat, j: nat, t: nat, max: nat, m: Moments)
    requires i <= j < |run| - 1 && t < |run[j].pcs| && !run[j].pcs[t].Idle? && Reached(run, i, j, t, max, m)
    requires t < |run[j + 1].pcs| && run[j + 1].pcs[t] == run[j].pcs[t]
    requires Gained(run[j + 1].claims, t) == Gained(run[j].claims, t)
    ensures Reached(run, i, j + 1, t, max, m)
  {
    hide Gained, Asked, Worth;
  }

  /** The loads of the call, and its ticket. */
  lemma OwnLook(run: seq<State>, i: nat, j: nat, t: nat, max: nat, m: Moments) returns (m': Moments)
    requires i <= j < |run| - 1 && t < |run[j].pcs| && Reached(run, i, j, t, max, m)
    requires var pc := run[j].pcs[t]; pc.LoadTail? || pc.LoadOvercommit? || pc.LoadOptimistic? || pc.TakeTicket?
    requires run[j + 1] == Step(run[j], t)
    ensures t < |run[j + 1].pcs| && Reached(run, i, j + 1, t, max, m')
  {
    hide Gained, Worth;
    match run[j].pcs[t]
    case LoadTail(_) => m' := m.(tail := j);
    case LoadOvercommit(_, _) => m' := m.(overcommit := j);
    case LoadOptimistic(_, _, _) => m' := m.(optimistic := j);
    case TakeTicket(_, _) => m' := m.(ticket := j);
  }

  lemma OwnSettle(run: seq<State>, i: nat, j: nat, t: nat, max: nat, m: Moments) returns (m': Moments)
    requires i <= j < |run| - 1 && t < |run[j].pcs| && Reached(run, i, j, t, max, m) && run[j].pcs[t].ReloadTail?
    requires run[j + 1] == Step(run[j], t)
    ensures t < |run[j + 1].pcs| && Reached(run, i, j + 1, t, max, m')
  {
    hide Gained;
    m' := m.(tailAgain := j);
    assert ClaimWeight()(run[j + 1].pcs[t]) == Worth(run, m', max);
  }

  lemma OwnClaim(run: seq<State>, i: nat, j: nat, t: nat, max: nat, m: Moments)
    requires i <= j < |run| - 1 && t < |run[j].pcs| && Reached(run, i, j, t, max, m)
    requires var pc := run[j].pcs[t]; pc.GiveBack? || pc.ClaimHead? || pc.GiveUp?
    requires run[j + 1] == Step(run[j], t)
    ensures t < |run[j + 1].pcs| && Reached(run, i, j + 1, t, max, m)
  {
    if run[j].pcs[t].ClaimHead? {
      GainedMore(run[j].claims, Claim(t, run[j].head, run[j].pcs[t].actual), t);
    }
    hide Gained, Asked, Worth;
  }

  lemma OthersMove(s: State, a: Action, t: nat)
    requires Enabled(s, a) && a != Run(t) && t < |s.pcs| && !s.pcs[t].Idle?
    ensures t < |Apply(s, a).pcs| && Apply(s, a).pcs[t] == s.pcs[t]
    ensures Gained(Apply(s, a).claims, t) == Gained(s.claims, t)
  {
    if a.Run? && s.pcs[a.t].ClaimHead? {
      GainedMore(s.claims, Claim(a.t, s.head, s.pcs[a.t].actual), t);
    }
    hide Gained;
  }

  /** One more operation, of this thread or another. */
  lemma ReachesMore(run: seq<State>, i: nat, j: nat, t: nat, max: nat, m: Moments) returns (m': Moments)
    requires IsRun(run) && i <= j < |run| - 1 && t < |run[j].pcs| && !run[j].pcs[t].Idle?
    requires Reached(run, i, j, t, max, m)
    ensures t < |run[j + 1].pcs| && Reached(run, i, j + 1, t, max, m')
  {
    hide Reached, Step, Init, Gained;
    assert Next(run[j], run[j + 1]);
    var a :| Enabled(run[j], a) && run[j + 1] == Apply(run[j], a);
    m' := m;
    if a != Run(t) {
      OthersMove(run[j], a, t);
      OthersStep(run, i, j, t, max, m);
    } else if run[j].pcs[t].ReloadTail? {
      m' := OwnSettle(run, i, j, t, max, m);
    } else if run[j].pcs[t].GiveBack? || run[j].pcs[t].ClaimHead? || run[j].pcs[t].GiveUp? {
      OwnClaim(run, i, j, t, max, m);
    } else {
      m' := OwnLook(run, i, j, t, max, m);
    }
  }

  lemma {:induction false} CallReaches(run: seq<State>, i: nat, j: nat, t: nat, max: nat) returns (m: Moments)
    requires IsRun(run) && i <= j < |run| && t < |run[i].pcs| && run[i].pcs[t] == LoadTail(max)
    requires forall k | i <= k < j :: t < |run[k].pcs| && !run[k].pcs[t].Idle?
    ensures t < |run[j].pcs| && Reached(run, i, j, t, max, m)
  {
    if i == j {
      m := Moments(0, 0, 0, 0, 0);
    } else {
      m := CallReaches(run, i, j - 1, t, max);
      m := ReachesMore(run, i, j - 1, t, max, m);
    }
  }

  /** A call that began at i and has returned at j, whatever ran beside it, has claimed exactly what the counters were
      worth at the moments it looked at them: nothing, if they said at the first look that nothing was there, and else
      the smallest of its maximum, what they said then, and what its ticket came to against the tail loaded again. */
  lemma CallGets(run: seq<State>, i: nat, j: nat, t: nat, max: nat)
    requires IsRun(run) && i <= j < |run| && t < |run[i].pcs| && run[i].pcs[t] == LoadTail(max)
    requires forall k | i <= k < j :: t < |run[k].pcs| && !run[k].pcs[t].Idle?
    requires t < |run[j].pcs| && run[j].pcs[t].Idle?
    ensures exists m: Moments ::
              && i <= m.tail < m.overcommit < m.optimistic < j
              && if run[m.tail].tail <= run[m.optimistic].optimistic - run[m.overcommit].overcommit then
                   Gained(run[j].claims, t) == Gained(run[i].claims, t)
                 else
                   && InOrder(m, i, j)
                   && Gained(run[j].claims, t) == Gained(run[i].claims, t) + Worth(run, m, max)
  {
    var m := CallReaches(run, i, j, t, max);
  }

  lemma AloneOnce(s: State, t: nat, n: nat)
    requires t < |s.pcs| && n > 0
    ensures Alone(s, t, n) == Alone(Step(s, t), t, n - 1)
  {}

  /** The steps that a thread still has before it, at most. */
  function Rank(pc: Pc): nat {
    match pc
    case Idle => 0
    case ClaimHead(_) => 1
    case GiveUp(_) => 1
    case GiveBack(_, _) => 2
    case ReloadTail(_, _, _) => 3
    case TakeTicket(_, _) => 4
    case LoadOptimistic(_, _, _) => 5
    case LoadOvercommit(_, _) => 6
    case LoadTail(_) => 7
  }

  /** Wherever a call is, and whatever others do or leave undone, it returns after at most seven steps of its own. */
  lemma {:induction false} AloneReturns(s: State, t: nat, n: nat)
    requires t < |s.pcs| && Rank(s.pcs[t]) <= n
    ensures Alone(s, t, n).pcs[t].Idle?
    decreases n
  {
    if n > 0 {
      hide Alone;
      assert s.pcs[t].Idle? || Rank(Step(s, t).pcs[t]) < Rank(s.pcs[t]);
      AloneOnce(s, t, n);
      AloneReturns(Step(s, t), t, n - 1);
    }
  }
}
