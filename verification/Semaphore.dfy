/** LightweightSemaphore: a user-space count that may go negative, over a kernel semaphore.

    The step machine performs one atomic operation of one thread at a time; any number of
    threads run wait, waitMany, tryWait, tryWaitMany, timed waits and signal at once.  wait and
    tryWait take the branches of waitMany and tryWaitMany with max 1. */
module Semaphore {
  import opened Counting

  datatype Timeout = Forever | Zero | Within

  /** What a call may acquire: at most `max`; it tries only, or it waits. */
  datatype Call = Try(max: nat) | Wait(max: nat, timeout: Timeout)

  datatype Pc =
    | Idle
    | TryLoad(call: Call, got: nat)
    | TryCas(call: Call, got: nat, seen: int)
    | SpinLoad(call: Call, left: nat)
    | SpinCas(call: Call, left: nat, seen: int)
    | Decrement(call: Call)
    | Sleep(call: Call)
    | Adjust(call: Call)
    | AdjustToken(call: Call)
    | AdjustCas(call: Call, seen: int)
    | Done(call: Call, result: nat)
    | SignalAdd(permits: nat)
    | Post(left: nat)

  /** `count` and `tokens` are the shared words; `initial`, `signalled` and `returned` record the
      permits put in so far and the permits that finished calls have handed out. */
  datatype State = State(count: int, tokens: nat, maxSpins: nat, pcs: seq<Pc>, initial: nat, signalled: nat, returned: nat)

  function Positive(x: int): nat { if x > 0 then x else 0 }

  /** What tryWaitMany leaves of a positive count. */
  function Leave(seen: int, max: nat): int { if seen > max then seen - max else 0 }

  function Wanted(c: Call, got: nat): nat { if got > 0 && c.max > 0 then c.max - 1 else c.max }

  /** tryWaitMany has returned `more` to a call that already had `got`. */
  function AfterTry(s: State, c: Call, got: nat, more: nat): Pc {
    if got + more == 0 && c.Wait? && c.max > 0 then Spin(s.maxSpins, c) else Done(c, got + more)
  }

  /** The loop test `--spin >= 0`. */
  function Spin(left: nat, c: Call): Pc { if left > 0 then SpinLoad(c, left - 1) else Decrement(c) }

  /** One permit is in hand; waitMany greedily tries for the rest. */
  function AfterOne(c: Call): Pc { if c.max > 1 then TryLoad(c, 1) else Done(c, 1) }

  /** One atomic operation of thread t.  `luck` decides what the code does not: whether a weak
      compare-exchange goes through, and whether a kernel wait gets a token or gives up. */
  function Step(s: State, t: nat, luck: bool): State
    requires t < |s.pcs|
  {
    match s.pcs[t]
    case Idle => s
    case TryLoad(c, got) =>
      s.(pcs := s.pcs[t := if s.count > 0 then TryCas(c, got, s.count) else AfterTry(s, c, got, 0)])
    case TryCas(c, got, seen) =>
      if s.count == seen && luck then
        var new' := Leave(seen, Wanted(c, got));
        s.(count := new', pcs := s.pcs[t := AfterTry(s, c, got, Positive(seen - new'))])
      else
        s.(pcs := s.pcs[t := if s.count > 0 then TryCas(c, got, s.count) else AfterTry(s, c, got, 0)])
    case SpinLoad(c, left) =>
      s.(pcs := s.pcs[t := if s.count > 0 then SpinCas(c, left, s.count) else Spin(left, c)])
    case SpinCas(c, left, seen) =>
      if s.count == seen then
        var new' := Leave(seen, c.max);
        s.(count := new', pcs := s.pcs[t := Done(c, Positive(seen - new'))])
      else
        s.(pcs := s.pcs[t := Spin(left, c)])
    case Decrement(c) =>
      s.(count := s.count - 1,
         pcs := s.pcs[t := if s.count > 0 then AfterOne(c) else if c.Wait? && c.timeout == Zero then Adjust(c) else Sleep(c)])
    case Sleep(c) =>
      if luck && s.tokens > 0 then s.(tokens := s.tokens - 1, pcs := s.pcs[t := AfterOne(c)])
      else if !luck && c.Wait? && c.timeout == Within then s.(pcs := s.pcs[t := Adjust(c)])
      else s
    case Adjust(c) =>
      s.(pcs := s.pcs[t := if s.count >= 0 then AdjustToken(c) else AdjustCas(c, s.count)])
    case AdjustToken(c) =>
      if s.tokens > 0 then s.(tokens := s.tokens - 1, pcs := s.pcs[t := AfterOne(c)])
      else s.(pcs := s.pcs[t := Adjust(c)])
    case AdjustCas(c, seen) =>
      if s.count == seen then s.(count := seen + 1, pcs := s.pcs[t := Done(c, 0)])
      else s.(pcs := s.pcs[t := Adjust(c)])
    case Done(c, result) =>
      s.(returned := s.returned + result, pcs := s.pcs[t := Idle])
    case SignalAdd(k) =>
      var toRelease := if -s.count < k then -s.count else k;
      s.(count := s.count + k, signalled := s.signalled + k,
         pcs := s.pcs[t := if toRelease > 0 then Post(toRelease) else Idle])
    case Post(left) =>
      s.(tokens := s.tokens + 1, pcs := s.pcs[t := if left > 1 then Post(left - 1) else Idle])
  }

  datatype Action = Run(t: nat, luck: bool) | Acquire(t: nat, call: Call) | Signal(t: nat, permits: nat)

  predicate Enabled(s: State, a: Action) {
    a.t < |s.pcs| && (a.Acquire? || a.Signal? ==> s.pcs[a.t].Idle?)
  }

  function Apply(s: State, a: Action): State
    requires Enabled(s, a)
  {
    match a
    case Run(t, luck) => Step(s, t, luck)
    case Acquire(t, c) => s.(pcs := s.pcs[t := TryLoad(c, 0)])
    case Signal(t, k) => s.(pcs := s.pcs[t := SignalAdd(k)])
  }

  ghost predicate Init(s: State) {
    && s.count == s.initial && s.tokens == 0 && s.signalled == 0 && s.returned == 0
    && forall t | 0 <= t < |s.pcs| :: s.pcs[t].Idle?
  }

  ghost predicate IsRun(run: seq<State>, actions: seq<Action>) {
    && |run| == |actions| + 1 && Init(run[0])
    && forall i | 0 <= i < |actions| :: Enabled(run[i], actions[i]) && run[i + 1] == Apply(run[i], actions[i])
  }

  // ---- The laws ----------------------------------------------------------------------

  /** Threads past the fetch_sub that have not yet got a permit or taken the decrement back. */
  predicate Waiting(pc: Pc) { pc.Sleep? || pc.Adjust? || pc.AdjustToken? || pc.AdjustCas? }

  function WaitWeight(): Pc -> nat { (pc: Pc) => if Waiting(pc) then 1 else 0 }

  /** Releases that a signal has decided on but not yet posted. */
  function PostWeight(): Pc -> nat { (pc: Pc) => if pc.Post? then pc.left else 0 }

  /** Permits acquired by calls still in progress. */
  function GotWeight(): Pc -> nat {
    (pc: Pc) => if pc.TryLoad? || pc.TryCas? then pc.got else if pc.Done? then pc.result else 0
  }

  function Waiters(s: State): nat { Sum(s.pcs, WaitWeight()) }
  function Unposted(s: State): nat { Sum(s.pcs, PostWeight()) }
  function InHand(s: State): nat { Sum(s.pcs, GotWeight()) }

  /** Permits free for the taking: in the count, in the kernel, or on the way there. */
  function Free(s: State): nat { Positive(s.count) + s.tokens + Unposted(s) }

  /** A call has the result it promises: never more than max, and at least one if it waits for ever for any. */
  predicate CallLaw(pc: Pc) {
    match pc
    case TryLoad(c, got) => got <= 1 && (got == 1 ==> c.max > 1)
    case TryCas(c, got, seen) => got <= 1 && (got == 1 ==> c.max > 1) && seen > 0
    case SpinLoad(c, _) => c.Wait? && c.max > 0
    case SpinCas(c, _, seen) => c.Wait? && c.max > 0 && seen > 0
    case Decrement(c) => c.Wait? && c.max > 0
    case Sleep(c) => c.Wait? && c.max > 0 && c.timeout != Zero
    case Adjust(c) => c.Wait? && c.max > 0 && c.timeout != Forever
    case AdjustToken(c) => c.Wait? && c.max > 0 && c.timeout != Forever
    case AdjustCas(c, seen) => c.Wait? && c.max > 0 && c.timeout != Forever && seen < 0
    case Done(c, r) => r <= c.max && (c.Wait? && c.timeout == Forever && c.max > 0 ==> r > 0)
    case Post(left) => left > 0
    case _ => true
  }

  ghost predicate CallsLaw(s: State) { forall t | 0 <= t < |s.pcs| :: CallLaw(s.pcs[t]) }

  predicate WaiterLaw(s: State) { Waiters(s) == Positive(-s.count) + s.tokens + Unposted(s) }

  predicate TokenLaw(s: State) { s.initial + s.signalled == s.returned + InHand(s) + Free(s) }

  ghost predicate Inv(s: State) { CallsLaw(s) && WaiterLaw(s) && TokenLaw(s) }

  lemma StepMovesOne(s: State, t: nat, luck: bool)
    requires t < |s.pcs|
    ensures var s' := Step(s, t, luck); s'.pcs == s.pcs[t := s'.pcs[t]] && s'.initial == s.initial
  {}

  lemma TryKeepsCall(s: State, t: nat, luck: bool)
    requires t < |s.pcs| && CallLaw(s.pcs[t]) && (s.pcs[t].TryLoad? || s.pcs[t].TryCas?)
    ensures CallLaw(Step(s, t, luck).pcs[t])
  {}

  lemma StepKeepsCall(s: State, t: nat, luck: bool)
    requires t < |s.pcs| && CallLaw(s.pcs[t])
    ensures CallLaw(Step(s, t, luck).pcs[t])
  {
    if s.pcs[t].TryLoad? || s.pcs[t].TryCas? {
      TryKeepsCall(s, t, luck);
    }
  }

  lemma StepBalancesWaiters(s: State, t: nat, luck: bool)
    requires t < |s.pcs| && CallLaw(s.pcs[t])
    ensures var s' := Step(s, t, luck);
            WaitWeight()(s'.pcs[t]) - WaitWeight()(s.pcs[t])
            == Positive(-s'.count) - Positive(-s.count) + s'.tokens - s.tokens + PostWeight()(s'.pcs[t]) - PostWeight()(s.pcs[t])
  {}

  lemma StepBalancesTokens(s: State, t: nat, luck: bool)
    requires t < |s.pcs| && CallLaw(s.pcs[t])
    ensures var s' := Step(s, t, luck);
            s'.signalled - s.signalled
            == s'.returned - s.returned + GotWeight()(s'.pcs[t]) - GotWeight()(s.pcs[t])
               + Positive(s'.count) - Positive(s.count) + s'.tokens - s.tokens + PostWeight()(s'.pcs[t]) - PostWeight()(s.pcs[t])
  {}

  lemma SumsFollow(s: State, t: nat, pc: Pc)
    requires t < |s.pcs|
    ensures Sum(s.pcs[t := pc], WaitWeight()) == Waiters(s) - WaitWeight()(s.pcs[t]) + WaitWeight()(pc)
    ensures Sum(s.pcs[t := pc], PostWeight()) == Unposted(s) - PostWeight()(s.pcs[t]) + PostWeight()(pc)
    ensures Sum(s.pcs[t := pc], GotWeight()) == InHand(s) - GotWeight()(s.pcs[t]) + GotWeight()(pc)
  {
    SumUpdate(s.pcs, t, pc, WaitWeight());
    SumUpdate(s.pcs, t, pc, PostWeight());
    SumUpdate(s.pcs, t, pc, GotWeight());
  }

  lemma ApplyKeepsInv(s: State, a: Action)
    requires Inv(s) && Enabled(s, a)
    ensures Inv(Apply(s, a))
  {
    match a
    case Run(t, luck) =>
      StepMovesOne(s, t, luck);
      StepKeepsCall(s, t, luck);
      StepBalancesWaiters(s, t, luck);
      StepBalancesTokens(s, t, luck);
      SumsFollow(s, t, Step(s, t, luck).pcs[t]);
    case Acquire(t, c) => SumsFollow(s, t, TryLoad(c, 0));
    case Signal(t, k) => SumsFollow(s, t, SignalAdd(k));
  }

  lemma {:induction false} RunKeepsInv(run: seq<State>, actions: seq<Action>, i: nat)
    requires IsRun(run, actions) && i < |run|
    ensures Inv(run[i])
  {
    if i == 0 {
      SumZero(run[0].pcs, WaitWeight());
      SumZero(run[0].pcs, PostWeight());
      SumZero(run[0].pcs, GotWeight());
    } else {
      RunKeepsInv(run, actions, i - 1);
      ApplyKeepsInv(run[i - 1], actions[i - 1]);
    }
  }

  // ---- What the semaphore promises ---------------------------------------------------

  /** The token law, over all interleavings: what was put in and not handed out is free, so permits are
      never over-acquired. */
  lemma TokensConserved(run: seq<State>, actions: seq<Action>, i: nat)
    requires IsRun(run, actions) && i < |run|
    ensures run[i].initial + run[i].signalled - (run[i].returned + InHand(run[i])) == Positive(run[i].count) + run[i].tokens + Unposted(run[i])
    ensures run[i].returned + InHand(run[i]) <= run[i].initial + run[i].signalled
  {
    RunKeepsInv(run, actions, i);
  }

  /** No stranded waiter: as many threads are past their decrement as the count is below zero, plus one
      for each token that is posted or about to be. */
  lemma WaitersAreCounted(run: seq<State>, actions: seq<Action>, i: nat)
    requires IsRun(run, actions) && i < |run|
    ensures Waiters(run[i]) == Positive(-run[i].count) + run[i].tokens + Unposted(run[i])
    ensures run[i].count >= 0 ==> run[i].tokens + Unposted(run[i]) == Waiters(run[i])
  {
    RunKeepsInv(run, actions, i);
  }

  /** A thread sleeps in the kernel with no token there or on its way only when every permit ever put in
      has been handed out. */
  lemma SleepsOnlyWhenNoneIsFree(run: seq<State>, actions: seq<Action>, i: nat, t: nat)
    requires IsRun(run, actions) && i < |run| && t < |run[i].pcs| && run[i].pcs[t].Sleep?
    requires run[i].tokens == 0 && Unposted(run[i]) == 0
    ensures run[i].count < 0 && run[i].initial + run[i].signalled == run[i].returned + InHand(run[i])
  {
    RunKeepsInv(run, actions, i);
    SumMember(run[i].pcs, t, WaitWeight());
  }

  /** A thread that timed out either still finds the count below zero, so that it can take its decrement
      back, or there is a token for it, posted or about to be. */
  lemma TimedOutIsServed(run: seq<State>, actions: seq<Action>, i: nat, t: nat)
    requires IsRun(run, actions) && i < |run| && t < |run[i].pcs|
    requires run[i].pcs[t].Adjust? || run[i].pcs[t].AdjustToken? || run[i].pcs[t].AdjustCas?
    ensures run[i].count < 0 || run[i].tokens + Unposted(run[i]) > 0
  {
    RunKeepsInv(run, actions, i);
    SumMember(run[i].pcs, t, WaitWeight());
  }

  /** A finished call returns at most what it asked for, and an untimed wait returns at least one permit exactly
      if it asked for any. */
  lemma ResultsAreInRange(run: seq<State>, actions: seq<Action>, i: nat, t: nat)
    requires IsRun(run, actions) && i < |run| && t < |run[i].pcs| && run[i].pcs[t].Done?
    ensures run[i].pcs[t].result <= run[i].pcs[t].call.max
    ensures run[i].pcs[t].call.Wait? && run[i].pcs[t].call.timeout == Forever ==> (run[i].pcs[t].result > 0 <==> run[i].pcs[t].call.max > 0)
  {
    RunKeepsInv(run, actions, i);
  }

  /** An untimed wait for at most zero permits is accepted and comes back with none, which the assertion of
      waitMany excludes. */
  lemma WaitForNoneGetsNone() returns (run: seq<State>, actions: seq<Action>)
    ensures IsRun(run, actions) && |actions| == 2 && |run[2].pcs| == 1
    ensures run[2].pcs[0] == Done(Wait(0, Forever), 0)
  {
    var s := State(0, 0, 0, [Idle], 0, 0, 0);
    var call := Wait(0, Forever);
    actions := [Acquire(0, call), Run(0, true)];
    run := [s, s.(pcs := [TryLoad(call, 0)]), s.(pcs := [Done(call, 0)])];
  }

  /** The number of releases that signal casts to int is at most the number of threads. */
  lemma ReleasesFitThreads(run: seq<State>, actions: seq<Action>, i: nat)
    requires IsRun(run, actions) && i < |run|
    ensures -run[i].count <= |run[i].pcs| && Unposted(run[i]) <= |run[i].pcs|
  {
    RunKeepsInv(run, actions, i);
    SumOfFlags(run[i].pcs, WaitWeight());
  }
}
