/** BlockingConcurrentQueue: an inner queue whose elements are matched by semaphore permits.

    Producers enqueue and then signal; consumers acquire permits and then spin on the inner queue
    until they have that many elements.  The machine runs the semaphore's own step machine, thread
    for thread; the inner queue is a bag whose dequeue may come back empty-handed at any time. */
module BlockingQueue {
  import opened Counting
  import Sem = Semaphore

  datatype Pc =
    | Free
    | Enqueued(count: nat)                  // elements are in, the signal is still to come
    | Signalling
    | Acquiring(call: Sem.Call)
    | Draining(call: Sem.Call, granted: nat, count: nat)    // holds `granted` permits, has dequeued `count` elements

  datatype State<T> = State(sema: Sem.State, inner: multiset<T>, pcs: seq<Pc>, enqueued: multiset<T>, delivered: multiset<T>)

  datatype Action<T> =
    | Enqueue(t: nat, items: seq<T>)
    | Signal(t: nat)
    | Acquire(t: nat, call: Sem.Call)
    | RunSema(t: nat, luck: bool)
    | Granted(t: nat)
    | TryDequeue(t: nat, taken: multiset<T>)
    | Return(t: nat)

  ghost predicate Enabled<T>(s: State<T>, a: Action<T>) {
    && a.t < |s.pcs| == |s.sema.pcs|
    && match a
       case Enqueue(t, items) => s.pcs[t].Free?
       case Signal(t) => s.pcs[t].Enqueued? && s.sema.pcs[t].Idle?
       case Acquire(t, call) => s.pcs[t].Free? && s.sema.pcs[t].Idle?
       case RunSema(t, luck) => (s.pcs[t].Signalling? || s.pcs[t].Acquiring?) && !s.sema.pcs[t].Done?
       case Granted(t) => s.pcs[t].Acquiring? && s.sema.pcs[t].Done?
       case TryDequeue(t, taken) => s.pcs[t].Draining? && taken <= s.inner && s.pcs[t].count + |taken| <= s.pcs[t].granted
       case Return(t) => s.pcs[t].Draining? && s.pcs[t].count == s.pcs[t].granted
  }

  /** Enqueue puts elements in and owes a signal for as many; a grant of r permits starts the loop that
      dequeues until it has r elements, each round taking what the inner queue gives. */
  ghost function Apply<T>(s: State<T>, a: Action<T>): State<T>
    requires Enabled(s, a)
  {
    match a
    case Enqueue(t, items) =>
      s.(inner := s.inner + multiset(items), enqueued := s.enqueued + multiset(items),
         pcs := s.pcs[t := Enqueued(|items|)])
    case Signal(t) =>
      s.(sema := Sem.Apply(s.sema, Sem.Signal(t, s.pcs[t].count)), pcs := s.pcs[t := Signalling])
    case Acquire(t, call) =>
      s.(sema := Sem.Apply(s.sema, Sem.Acquire(t, call)), pcs := s.pcs[t := Acquiring(call)])
    case RunSema(t, luck) =>
      var sema := Sem.Step(s.sema, t, luck);
      s.(sema := sema, pcs := s.pcs[t := if s.pcs[t].Signalling? && sema.pcs[t].Idle? then Free else s.pcs[t]])
    case Granted(t) =>
      s.(sema := Sem.Step(s.sema, t, true), pcs := s.pcs[t := Draining(s.pcs[t].call, s.sema.pcs[t].result, 0)])
    case TryDequeue(t, taken) =>
      s.(inner := s.inner - taken, delivered := s.delivered + taken,
         pcs := s.pcs[t := s.pcs[t].(count := s.pcs[t].count + |taken|)])
    case Return(t) =>
      s.(pcs := s.pcs[t := Free])
  }

  ghost predicate Init<T>(s: State<T>) {
    && Sem.Init(s.sema) && s.sema.initial == 0
    && s.inner == multiset{} && s.enqueued == multiset{} && s.delivered == multiset{}
    && |s.pcs| == |s.sema.pcs| && forall t | 0 <= t < |s.pcs| :: s.pcs[t].Free?
  }

  ghost predicate IsRun<T>(run: seq<State<T>>, actions: seq<Action<T>>) {
    && |run| == |actions| + 1 && Init(run[0])
    && forall i | 0 <= i < |actions| :: Enabled(run[i], actions[i]) && run[i + 1] == Apply(run[i], actions[i])
  }

  // ---- The coupling ------------------------------------------------------------------

  function OwedWeight(): Pc -> nat { (pc: Pc) => if pc.Enqueued? then pc.count else 0 }
  function SignalWeight(): Sem.Pc -> nat { (pc: Sem.Pc) => if pc.SignalAdd? then pc.permits else 0 }
  function DrainWeight(): Pc -> nat { (pc: Pc) => if pc.Draining? && pc.count <= pc.granted then pc.granted - pc.count else 0 }

  /** Elements enqueued whose permits are not in the semaphore yet. */
  function Unsignalled<T>(s: State<T>): nat { Sum(s.pcs, OwedWeight()) + Sum(s.sema.pcs, SignalWeight()) }

  /** Permits that have left the semaphore and are not yet an element in a caller's hands: those that calls
      still inside the semaphore have got, and those of calls spinning on the inner queue. */
  function Undelivered<T>(s: State<T>): nat { Sem.InHand(s.sema) + Sum(s.pcs, DrainWeight()) }

  /** What a thread does in the queue and what it does in the semaphore go together. */
  predicate ThreadLaw(pc: Pc, sema: Sem.Pc) {
    match pc
    case Free => sema.Idle?
    case Enqueued(_) => sema.Idle?
    case Signalling => sema.SignalAdd? || sema.Post?
    case Acquiring(call) => !sema.SignalAdd? && !sema.Post? && !sema.Idle? && sema.call == call
    case Draining(call, granted, count) =>
      && sema.Idle? && count <= granted <= call.max
      && (call.Wait? && call.timeout == Sem.Forever ==> (granted > 0 <==> call.max > 0))
  }

  ghost predicate ThreadsLaw<T>(s: State<T>) {
    |s.pcs| == |s.sema.pcs| && forall t | 0 <= t < |s.pcs| :: ThreadLaw(s.pcs[t], s.sema.pcs[t])
  }

  ghost predicate Balanced<T>(s: State<T>) {
    && s.inner + s.delivered == s.enqueued
    && |s.enqueued| == s.sema.signalled + Unsignalled(s)
    && s.sema.returned == |s.delivered| + Sum(s.pcs, DrainWeight())
  }

  ghost predicate Inv<T>(s: State<T>) {
    Sem.Inv(s.sema) && s.sema.initial == 0 && ThreadsLaw(s) && Balanced(s)
  }

  lemma SumsFollow<T>(s: State<T>, t: nat, pc: Pc, sema: Sem.Pc)
    requires t < |s.pcs| && t < |s.sema.pcs|
    ensures Sum(s.pcs[t := pc], OwedWeight()) == Sum(s.pcs, OwedWeight()) - OwedWeight()(s.pcs[t]) + OwedWeight()(pc)
    ensures Sum(s.pcs[t := pc], DrainWeight()) == Sum(s.pcs, DrainWeight()) - DrainWeight()(s.pcs[t]) + DrainWeight()(pc)
    ensures Sum(s.sema.pcs[t := sema], SignalWeight()) == Sum(s.sema.pcs, SignalWeight()) - SignalWeight()(s.sema.pcs[t]) + SignalWeight()(sema)
  {
    SumUpdate(s.pcs, t, pc, OwedWeight());
    SumUpdate(s.pcs, t, pc, DrainWeight());
    SumUpdate(s.sema.pcs, t, sema, SignalWeight());
  }

  lemma EnqueueKeepsInv<T>(s: State<T>, t: nat, items: seq<T>)
    requires Inv(s) && Enabled(s, Enqueue(t, items))
    ensures Inv(Apply(s, Enqueue(t, items)))
  {
    assert ThreadLaw(s.pcs[t], s.sema.pcs[t]);
    SumsFollow(s, t, Enqueued(|items|), s.sema.pcs[t]);
    assert s.inner + multiset(items) + s.delivered == s.enqueued + multiset(items);
  }

  lemma DequeueKeepsInv<T>(s: State<T>, t: nat, taken: multiset<T>)
    requires Inv(s) && Enabled(s, TryDequeue(t, taken))
    ensures Inv(Apply(s, TryDequeue(t, taken)))
  {
    assert ThreadLaw(s.pcs[t], s.sema.pcs[t]);
    SumsFollow(s, t, s.pcs[t].(count := s.pcs[t].count + |taken|), s.sema.pcs[t]);
    assert s.inner - taken + (s.delivered + taken) == s.enqueued;
    assert |s.delivered + taken| == |s.delivered| + |taken|;
  }

  lemma ReturnKeepsInv<T>(s: State<T>, t: nat)
    requires Inv(s) && Enabled(s, Return(t))
    ensures Inv(Apply(s, Return(t)))
  {
    assert ThreadLaw(s.pcs[t], s.sema.pcs[t]);
    SumsFollow(s, t, Free, s.sema.pcs[t]);
  }

  lemma CallKeepsInv<T>(s: State<T>, a: Action<T>)
    requires Inv(s) && Enabled(s, a) && (a.Signal? || a.Acquire?)
    ensures Inv(Apply(s, a))
  {
    var s' := Apply(s, a);
    assert ThreadLaw(s.pcs[a.t], s.sema.pcs[a.t]);
    SumsFollow(s, a.t, s'.pcs[a.t], s'.sema.pcs[a.t]);
    Sem.ApplyKeepsInv(s.sema, if a.Signal? then Sem.Signal(a.t, s.pcs[a.t].count) else Sem.Acquire(a.t, a.call));
  }

  /** A semaphore operation keeps to its kind of call, and counts a signal when it adds it. */
  lemma SemaStep(s: Sem.State, t: nat, luck: bool)
    requires t < |s.pcs|
    ensures var s' := Sem.Step(s, t, luck);
            && s'.signalled + SignalWeight()(s'.pcs[t]) == s.signalled + SignalWeight()(s.pcs[t])
            && s'.returned == s.returned + (if s.pcs[t].Done? then s.pcs[t].result else 0)
            && (s.pcs[t].SignalAdd? || s.pcs[t].Post? ==> s'.pcs[t].Post? || s'.pcs[t].Idle?)
            && (!s.pcs[t].SignalAdd? && !s.pcs[t].Post? && !s.pcs[t].Idle? && !s.pcs[t].Done? ==>
                  !s'.pcs[t].SignalAdd? && !s'.pcs[t].Post? && !s'.pcs[t].Idle? && s'.pcs[t].call == s.pcs[t].call)
            && (s.pcs[t].Done? ==> s'.pcs[t].Idle?)
  {}

  lemma SemaKeepsThreads<T>(s: State<T>, a: Action<T>)
    requires Inv(s) && Enabled(s, a) && (a.RunSema? || a.Granted?)
    ensures ThreadsLaw(Apply(s, a))
  {
    hide Balanced, Sem.WaiterLaw, Sem.TokenLaw;
    var luck := a.Granted? || a.luck;
    assert ThreadLaw(s.pcs[a.t], s.sema.pcs[a.t]);
    assert Sem.CallLaw(s.sema.pcs[a.t]);
    Sem.StepMovesOne(s.sema, a.t, luck);
    SemaStep(s.sema, a.t, luck);
    hide Sem.Step, Sem.CallLaw;
  }

  lemma SemaKeepsInv<T>(s: State<T>, a: Action<T>)
    requires Inv(s) && Enabled(s, a) && (a.RunSema? || a.Granted?)
    ensures Inv(Apply(s, a))
  {
    var s', luck := Apply(s, a), a.Granted? || a.luck;
    assert ThreadLaw(s.pcs[a.t], s.sema.pcs[a.t]);
    Sem.StepMovesOne(s.sema, a.t, luck);
    SemaStep(s.sema, a.t, luck);
    SemaKeepsThreads(s, a);
    hide ThreadsLaw;
    SumsFollow(s, a.t, s'.pcs[a.t], s'.sema.pcs[a.t]);
    Sem.ApplyKeepsInv(s.sema, Sem.Run(a.t, luck));
  }

  lemma {:induction false} RunKeepsInv<T>(run: seq<State<T>>, actions: seq<Action<T>>, i: nat)
    requires IsRun(run, actions) && i < |run|
    ensures Inv(run[i])
  {
    if i == 0 {
      var s := run[0];
      SumZero(s.pcs, OwedWeight());
      SumZero(s.pcs, DrainWeight());
      SumZero(s.sema.pcs, SignalWeight());
      SumZero(s.sema.pcs, Sem.WaitWeight());
      SumZero(s.sema.pcs, Sem.PostWeight());
      SumZero(s.sema.pcs, Sem.GotWeight());
    } else {
      RunKeepsInv(run, actions, i - 1);
      var s, a := run[i - 1], actions[i - 1];
      match a
      case Enqueue(t, items) => EnqueueKeepsInv(s, t, items);
      case TryDequeue(t, taken) => DequeueKeepsInv(s, t, taken);
      case Return(t) => ReturnKeepsInv(s, t);
      case Signal(_) => CallKeepsInv(s, a);
      case Acquire(_, _) => CallKeepsInv(s, a);
      case RunSema(_, _) => SemaKeepsInv(s, a);
      case Granted(_) => SemaKeepsInv(s, a);
    }
  }

  // ---- What the blocking queue promises ----------------------------------------------

  /** Every element in the inner queue is spoken for exactly once: by a free permit, by a signal still to
      come, or by a permit on its way to becoming that element.  No element is lost or duplicated. */
  lemma ReservedElements<T>(run: seq<State<T>>, actions: seq<Action<T>>, i: nat)
    requires IsRun(run, actions) && i < |run|
    ensures |run[i].inner| == Sem.Free(run[i].sema) + Unsignalled(run[i]) + Undelivered(run[i])
    ensures run[i].inner + run[i].delivered == run[i].enqueued
  {
    RunKeepsInv(run, actions, i);
    assert |run[i].enqueued| == |run[i].inner| + |run[i].delivered|;
  }

  /** The inner queue holds what all spinning threads together still want, so each of them, alone or beside
      any others, has its own share reserved. */
  lemma SpinnersAreServed<T>(run: seq<State<T>>, actions: seq<Action<T>>, i: nat, t: nat)
    requires IsRun(run, actions) && i < |run| && t < |run[i].pcs| && run[i].pcs[t].Draining?
    ensures Sum(run[i].pcs, DrainWeight()) <= |run[i].inner|
    ensures run[i].pcs[t].granted <= run[i].pcs[t].count + |run[i].inner|
    ensures forall u | 0 <= u < |run[i].pcs| && u != t && run[i].pcs[u].Draining? ::
              run[i].pcs[t].granted - run[i].pcs[t].count + run[i].pcs[u].granted - run[i].pcs[u].count <= |run[i].inner|
  {
    ReservedElements(run, actions, i);
    RunKeepsInv(run, actions, i);
    var s := run[i];
    assert ThreadLaw(s.pcs[t], s.sema.pcs[t]);
    SumMember(s.pcs, t, DrainWeight());
    forall u | 0 <= u < |s.pcs| && u != t && s.pcs[u].Draining?
      ensures s.pcs[t].granted - s.pcs[t].count + s.pcs[u].granted - s.pcs[u].count <= |s.inner|
    {
      assert ThreadLaw(s.pcs[u], s.sema.pcs[u]);
      SumPair(s.pcs, if t < u then t else u, if t < u then u else t, DrainWeight());
    }
  }

  lemma {:induction false} PartOf<T>(whole: multiset<T>, size: nat) returns (part: multiset<T>)
    requires size <= |whole|
    ensures part <= whole && |part| == size
  {
    if size == 0 {
      part := multiset{};
    } else {
      part := PartOf(whole, size - 1);
      assert |whole - part| == |whole| - |part|;
      var x :| x in whole - part;
      part := part + multiset{x};
    }
  }

  /** A thread in a retry loop can finish at once: the inner queue has what it still wants. */
  lemma SpinnerCanFinish<T>(run: seq<State<T>>, actions: seq<Action<T>>, i: nat, t: nat) returns (taken: multiset<T>)
    requires IsRun(run, actions) && i < |run| && t < |run[i].pcs| && run[i].pcs[t].Draining?
    ensures Enabled(run[i], TryDequeue(t, taken))
    ensures Enabled(Apply(run[i], TryDequeue(t, taken)), Return(t))
  {
    SpinnersAreServed(run, actions, i, t);
    RunKeepsInv(run, actions, i);
    var pc := run[i].pcs[t];
    assert ThreadLaw(pc, run[i].sema.pcs[t]);
    taken := PartOf(run[i].inner, pc.granted - pc.count);
  }

  predicate Answers(pc: Pc, call: Sem.Call) { (pc.Acquiring? || pc.Draining?) && pc.call == call }

  lemma StepStaysWithCall<T>(s: State<T>, a: Action<T>, t: nat, call: Sem.Call)
    requires Enabled(s, a) && t < |s.pcs| && Answers(s.pcs[t], call) && a != Return(t)
    ensures t < |Apply(s, a).pcs| && Answers(Apply(s, a).pcs[t], call)
  {}

  lemma CallIsTaken<T>(s: State<T>, t: nat, call: Sem.Call)
    requires Enabled(s, Acquire(t, call))
    ensures t < |Apply(s, Acquire(t, call)).pcs| && Answers(Apply(s, Acquire(t, call)).pcs[t], call)
  {}

  /** Once thread t has called for permits, and until it returns, it answers that call. */
  lemma {:induction false} StaysWithCall<T>(run: seq<State<T>>, actions: seq<Action<T>>, i: nat, j: nat, t: nat,
                                            call: Sem.Call)
    requires IsRun(run, actions) && i < j < |run| && actions[i] == Acquire(t, call)
    requires forall k | i < k < j :: actions[k] != Return(t)
    ensures t < |run[j].pcs| && Answers(run[j].pcs[t], call)
  {
    hide Apply, Init;
    assert Enabled(run[j - 1], actions[j - 1]) && run[j] == Apply(run[j - 1], actions[j - 1]);
    if i + 1 < j {
      StaysWithCall(run, actions, i, j - 1, t, call);
      StepStaysWithCall(run[j - 1], actions[j - 1], t, call);
    } else {
      CallIsTaken(run[i], t, call);
    }
  }

  /** A call returns exactly the number of elements that its permits granted, which is at most what its caller asked
      for, and without a timeout at least one exactly if the caller asked for any. */
  lemma GrantIsExact<T>(run: seq<State<T>>, actions: seq<Action<T>>, i: nat, j: nat, t: nat, call: Sem.Call)
    requires IsRun(run, actions) && i < j < |actions| && actions[i] == Acquire(t, call) && actions[j] == Return(t)
    requires forall k | i < k < j :: actions[k] != Return(t)
    ensures t < |run[j].pcs| && run[j].pcs[t].Draining? && run[j].pcs[t].call == call
    ensures run[j].pcs[t].count == run[j].pcs[t].granted <= call.max
    ensures call.Wait? && call.timeout == Sem.Forever ==> (run[j].pcs[t].count > 0 <==> call.max > 0)
  {
    RunKeepsInv(run, actions, j);
    StaysWithCall(run, actions, i, j, t, call);
    assert Enabled(run[j], actions[j]) && ThreadLaw(run[j].pcs[t], run[j].sema.pcs[t]);
  }

  /** Once every call has returned, size_approx is exact. */
  lemma SizeApproxWhenStable<T>(run: seq<State<T>>, actions: seq<Action<T>>, i: nat)
    requires IsRun(run, actions) && i < |run|
    requires forall t | 0 <= t < |run[i].pcs| :: run[i].pcs[t].Free?
    ensures Sem.Positive(run[i].sema.count) == |run[i].inner|
  {
    var s := run[i];
    RunKeepsInv(run, actions, i);
    forall t | 0 <= t < |s.pcs| ensures s.sema.pcs[t].Idle? {
      assert ThreadLaw(s.pcs[t], s.sema.pcs[t]);
    }
    SumZero(s.pcs, OwedWeight());
    SumZero(s.pcs, DrainWeight());
    SumZero(s.sema.pcs, SignalWeight());
    SumZero(s.sema.pcs, Sem.WaitWeight());
    SumZero(s.sema.pcs, Sem.PostWeight());
    SumZero(s.sema.pcs, Sem.GotWeight());
    ReservedElements(run, actions, i);
  }
}
