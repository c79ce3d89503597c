/** What one call on the semaphore gets, in any interleaving: greedily all that it can see, up to its maximum. */
module SemaphoreCalls {
  import opened Semaphore

  function Min(a: nat, b: nat): nat { if a < b then a else b }

  /** What the call at this point has acquired. */
  function Got(pc: Pc): nat { if pc.TryLoad? || pc.TryCas? then pc.got else if pc.Done? then pc.result else 0 }

  /** A successful compare-exchange takes as many permits as are there and still wanted, no more and no fewer, and
      ends the call with these and what it had. */
  lemma ExchangeIsGreedy(run: seq<State>, actions: seq<Action>, i: nat, t: nat, luck: bool)
    requires IsRun(run, actions) && i < |actions| && actions[i] == Run(t, luck)
    requires (run[i].pcs[t].TryCas? && luck) || run[i].pcs[t].SpinCas?
    requires run[i].count == run[i].pcs[t].seen
    ensures var pc := run[i].pcs[t];
            && Got(pc) <= pc.call.max
            && var more := Min(Positive(run[i].count), pc.call.max - Got(pc));
               run[i + 1].count == run[i].count - more && run[i + 1].pcs[t] == Done(pc.call, Got(pc) + more)
  {
    RunKeepsInv(run, actions, i);
    assert CallLaw(run[i].pcs[t]);
  }

  /** A call that ends with fewer permits than it asked for has left none in the count. */
  lemma ShortResultMeansNone(run: seq<State>, actions: seq<Action>, i: nat, t: nat)
    requires IsRun(run, actions) && i < |actions| && t < |run[i].pcs| && t < |run[i + 1].pcs|
    requires !run[i].pcs[t].Done? && run[i + 1].pcs[t].Done?
    ensures run[i + 1].pcs[t].result < run[i + 1].pcs[t].call.max ==> run[i + 1].count <= 0
  {
    RunKeepsInv(run, actions, i);
    assert Enabled(run[i], actions[i]) && CallLaw(run[i].pcs[t]);
    assert actions[i].Run? && actions[i].t == t;
  }

  /** A try comes back with nothing only if the count it loaded last was not above zero, or it asked for nothing;
      a wait, only if it asked for nothing or has timed out and taken its decrement back. */
  lemma NothingOnlyIfNone(run: seq<State>, actions: seq<Action>, i: nat, t: nat)
    requires IsRun(run, actions) && i < |actions| && t < |run[i].pcs| && t < |run[i + 1].pcs|
    requires !run[i].pcs[t].Done? && run[i + 1].pcs[t].Done? && run[i + 1].pcs[t].result == 0
    ensures var call := run[i + 1].pcs[t].call;
            || call.max == 0
            || (call.Try? && run[i].count <= 0)
            || (call.Wait? && call.timeout != Forever && run[i].pcs[t].AdjustCas? && run[i + 1].count == run[i].count + 1 <= 0)
  {
    RunKeepsInv(run, actions, i);
    assert Enabled(run[i], actions[i]) && CallLaw(run[i].pcs[t]);
    assert actions[i].Run? && actions[i].t == t;
  }

  /** From i to j only thread t takes steps. */
  ghost predicate OnlyRuns(actions: seq<Action>, i: nat, j: nat, t: nat) {
    j <= |actions| && forall k | i <= k < j :: actions[k].Run? && actions[k].t == t
  }

  /** A call that began at a count with no other thread stepping since. */
  predicate LoneLaw(s: State, pc: Pc, call: Call, count: int) {
    match pc
    case TryLoad(c, got) => c == call && got == 0 && s.count == count
    case TryCas(c, got, seen) => c == call && got == 0 && s.count == count == seen > 0
    case Done(c, r) => c == call && r == Min(call.max, Positive(count)) && s.count == count - r
    case _ => false
  }

  lemma LoneStep(s: State, t: nat, luck: bool, call: Call, count: int)
    requires t < |s.pcs| && LoneLaw(s, s.pcs[t], call, count) && !s.pcs[t].Done?
    requires call.Try? || count > 0
    ensures var s' := Step(s, t, luck); LoneLaw(s', s'.pcs[t], call, count)
  {}

  lemma {:induction false} LoneCall(run: seq<State>, actions: seq<Action>, i: nat, j: nat, t: nat, call: Call)
    requires IsRun(run, actions) && i < j <= |actions| && actions[i] == Acquire(t, call)
    requires OnlyRuns(actions, i + 1, j, t)
    requires call.Try? || run[i].count > 0
    requires forall k | i < k < j :: t < |run[k].pcs| && !run[k].pcs[t].Done?
    ensures t < |run[j].pcs| && LoneLaw(run[j], run[j].pcs[t], call, run[i].count)
  {
    if i + 1 < j {
      LoneCall(run, actions, i, j - 1, t, call);
      assert Enabled(run[j - 1], actions[j - 1]);
      LoneStep(run[j - 1], t, actions[j - 1].luck, call, run[i].count);
    } else {
      assert Enabled(run[i], actions[i]);
    }
  }

  /** With no other thread stepping a try, and any wait that finds the count above zero, gets the smaller of its
      maximum and the count, and takes exactly that, however often its compare-exchange fails for no reason; where
      the exchange goes through, at its second step. */
  lemma LoneCallGetsAll(run: seq<State>, actions: seq<Action>, i: nat, j: nat, t: nat, call: Call)
    requires IsRun(run, actions) && i < j <= |actions| && actions[i] == Acquire(t, call)
    requires OnlyRuns(actions, i + 1, j, t)
    requires call.Try? || run[i].count > 0
    requires forall k | i < k < j :: t < |run[k].pcs| && !run[k].pcs[t].Done?
    ensures t < |run[j].pcs|
    ensures run[j].pcs[t].Done? ==> run[j].pcs[t].result == Min(call.max, Positive(run[i].count)) && run[j].count == run[i].count - run[j].pcs[t].result
    ensures j == i + 3 && actions[i + 2] == Run(t, true) ==> run[j].pcs[t].Done?
    ensures j == i + 2 && run[i].count <= 0 ==> run[j].pcs[t].Done?
  {
    LoneCall(run, actions, i, j, t, call);
    if j == i + 3 {
      LoneCall(run, actions, i, j - 1, t, call);
      LoneCall(run, actions, i, j - 2, t, call);
      assert Enabled(run[i + 2], actions[i + 2]) && run[i + 3] == Apply(run[i + 2], actions[i + 2]);
      assert Enabled(run[i + 1], actions[i + 1]) && run[i + 2] == Apply(run[i + 1], actions[i + 1]);
    }
  }

  /** The state after n steps of thread t alone, whose exchanges go through and whose kernel waits get what tokens
      there are. */
  function Alone(s: State, t: nat, n: nat): (r: State)
    requires t < |s.pcs|
    ensures |r.pcs| == |s.pcs|
    decreases n
  {
    if n == 0 then s else Alone(Step(s, t, true), t, n - 1)
  }

  /** A thread that waits in the kernel, or has timed out with the count not below zero, is served by a token that is
      there: it goes on to get that permit and what else there is, up to its maximum. */
  lemma TokenServes(run: seq<State>, actions: seq<Action>, i: nat, t: nat) returns (n: nat)
    requires IsRun(run, actions) && i < |run| && t < |run[i].pcs| && run[i].tokens > 0
    requires run[i].pcs[t].Sleep? || (run[i].pcs[t].Adjust? && run[i].count >= 0)
    ensures var s, s' := run[i], Alone(run[i], t, n);
            && s'.pcs[t] == Done(s.pcs[t].call, Min(s.pcs[t].call.max, 1 + Positive(s.count)))
            && s'.tokens == s.tokens - 1 && s'.count == s.count - (s'.pcs[t].result - 1)
  {
    RunKeepsInv(run, actions, i);
    var s, call := run[i], run[i].pcs[t].call;
    assert CallLaw(s.pcs[t]);
    var s1 := if s.pcs[t].Sleep? then Step(s, t, true) else Step(Step(s, t, true), t, true);
    n := if s.pcs[t].Sleep? then 1 else 2;
    assert s1 == Alone(s, t, n);
    if call.max > 1 {
      var more := if s.count > 0 then 2 else 1;
      assert Alone(s1, t, more) == if s.count > 0 then Step(Step(s1, t, true), t, true) else Step(s1, t, true);
      AloneTwice(s, t, n, more);
      n := n + more;
    }
  }

  /** A thread that has timed out with the count below zero takes its decrement back, alone, and gets nothing. */
  lemma TimedOutGivesUp(run: seq<State>, actions: seq<Action>, i: nat, t: nat)
    requires IsRun(run, actions) && i < |run| && t < |run[i].pcs| && run[i].pcs[t].Adjust? && run[i].count < 0
    ensures var s' := Alone(run[i], t, 2);
            s'.pcs[t] == Done(run[i].pcs[t].call, 0) && s'.count == run[i].count + 1 && s'.tokens == run[i].tokens
  {
    assert Alone(run[i], t, 2) == Step(Step(run[i], t, true), t, true);
  }

  lemma {:induction false} AloneTwice(s: State, t: nat, m: nat, n: nat)
    requires t < |s.pcs|
    ensures Alone(s, t, m + n) == Alone(Alone(s, t, m), t, n)
    decreases m
  {
    if m > 0 {
      AloneTwice(Step(s, t, true), t, m - 1, n);
    }
  }

  lemma {:induction false} PostsAll(s: State, t: nat)
    requires t < |s.pcs| && s.pcs[t].Post? && s.pcs[t].left > 0
    ensures var s' := Alone(s, t, s.pcs[t].left);
            s'.pcs[t] == Idle && s'.tokens == s.tokens + s.pcs[t].left && s'.count == s.count && s'.signalled == s.signalled
    decreases s.pcs[t].left
  {
    var s1 := Step(s, t, true);
    if s.pcs[t].left > 1 {
      PostsAll(s1, t);
      assert s.pcs[t].left == 1 + s1.pcs[t].left;
    } else {
      assert Alone(s, t, 1) == Alone(s1, t, 0);
    }
  }

  /** A signal of k permits, alone, puts a token into the kernel for each of up to k threads that the count says are
      waiting, and comes back. */
  lemma SignalServes(run: seq<State>, actions: seq<Action>, i: nat, t: nat)
    requires IsRun(run, actions) && i < |run| && t < |run[i].pcs| && run[i].pcs[t].SignalAdd?
    ensures var s := run[i];
            var served := Min(s.pcs[t].permits, Positive(-s.count));
            var s' := Alone(s, t, 1 + served);
            s'.pcs[t] == Idle && s'.count == s.count + s.pcs[t].permits && s'.tokens == s.tokens + served
            && s'.signalled == s.signalled + s.pcs[t].permits
  {
    var s1 := Step(run[i], t, true);
    if s1.pcs[t].Post? {
      PostsAll(s1, t);
    }
  }

  // ---- Left alone --------------------------------------------------------------------

  /** The thread has finished, or it can only wait for another: for a token in the kernel, or in the re-adjust loop for
      one that a signal has still to post. */
  predicate Rests(s: State, pc: Pc) {
    || pc.Idle? || pc.Done? || (pc.Sleep? && s.tokens == 0)
    || ((pc.Adjust? || pc.AdjustToken?) && s.tokens == 0 && s.count >= 0)
  }

  /** The steps before that, at most. */
  function Rank(s: State, pc: Pc): nat {
    match pc
    case Idle => 0
    case Done(_, _) => 0
    case TryCas(_, got, seen) => if seen == s.count then 1 else if got > 0 then 2 else 10 + 2 * s.maxSpins
    case TryLoad(_, got) => if got > 0 then 2 else 11 + 2 * s.maxSpins
    case Sleep(_) => 4
    case AdjustCas(_, seen) => if seen == s.count then 1 else 6
    case AdjustToken(_) => if s.tokens > 0 then 4 else 7
    case Adjust(_) => if s.count < 0 then 2 else 5
    case Decrement(_) => 8
    case SpinCas(_, left, seen) => if seen == s.count then 1 else 10 + 2 * left
    case SpinLoad(_, left) => 11 + 2 * left
    case SignalAdd(permits) => 1 + permits
    case Post(left) => left
  }

  lemma RankFalls(s: State, t: nat)
    requires t < |s.pcs| && CallLaw(s.pcs[t]) && !Rests(s, s.pcs[t])
    ensures Rank(Step(s, t, true), Step(s, t, true).pcs[t]) < Rank(s, s.pcs[t])
  {}

  lemma {:induction false} ComesToRest(s: State, t: nat) returns (n: nat)
    requires t < |s.pcs| && Inv(s)
    ensures Rests(Alone(s, t, n), Alone(s, t, n).pcs[t])
    decreases Rank(s, s.pcs[t])
  {
    hide Step, Rank, Rests, Inv;
    if Rests(s, s.pcs[t]) {
      n := 0;
    } else {
      assert CallLaw(s.pcs[t]) by {
        CallIsLawful(s, t);
      }
      RankFalls(s, t);
      StepMovesOne(s, t, true);
      ApplyKeepsInv(s, Run(t, true));
      assert Enabled(s, Run(t, true)) && Apply(s, Run(t, true)) == Step(s, t, true);
      n := ComesToRest(Step(s, t, true), t);
      n := n + 1;
    }
  }

  lemma CallIsLawful(s: State, t: nat)
    requires Inv(s) && t < |s.pcs|
    ensures CallLaw(s.pcs[t])
  {}

  /** From any reachable state a thread that is left alone comes to the end of its call or signal, unless there is no
      token for it and it has to wait for one. */
  lemma AloneRests(run: seq<State>, actions: seq<Action>, i: nat, t: nat) returns (n: nat)
    requires IsRun(run, actions) && i < |run| && t < |run[i].pcs|
    ensures Rests(Alone(run[i], t, n), Alone(run[i], t, n).pcs[t])
  {
    RunKeepsInv(run, actions, i);
    n := ComesToRest(run[i], t);
  }
}
