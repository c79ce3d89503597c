/** Runs of the machine that joins the dequeue protocol, the lookups of an explicit producer's consumers and the
    cells of its blocks: what every run keeps, and what it delivers. */
module ExplicitDelivery {
  import opened Delivery
  import opened Wraparound
  import opened ExplicitConsumers
  import D = DequeueProtocol
  import L = ExplicitLookup
  import R = ExplicitRuns
  import Counting

  // ---- Runs ----------------------------------------------------------------------------------

  /** A run of the joined machine is a run of the protocol and a run of the lookups. */
  lemma {:induction false} RunIsBoth<T>(run: seq<State<T>>, actions: seq<Action<T>>)
    requires IsRun(run, actions)
    ensures D.IsRun(Counters(run)) && L.IsRun(Lookups(run), LookupActions(run, actions))
    ensures Law(run[|actions|])
    decreases |actions|
  {
    var n := |actions|;
    if n == 0 {
      StartsLawful(run[0]);
      assert Counters(run) == [run[0].counters] && Lookups(run) == [run[0].lookup];
    } else {
      RunIsBoth(run[..n], actions[..n - 1]);
      var s, a := run[n - 1], actions[n - 1];
      assert Counters(run[..n])[n - 1] == s.counters && Lookups(run[..n])[n - 1] == s.lookup;
      R.RunKeepsInv(Lookups(run[..n]), LookupActions(run[..n], actions[..n - 1]), n - 1);
      var slots, high := D.RunKeepsInv(Counters(run[..n]), n - 1);
      hide Law, R.Inv, D.Inv, L.IsRun, D.IsRun, Apply, Enabled;
      StepIsBoth(s, a);
      if a.Run? && s.counters.pcs[a.t].ClaimHead? {
        D.ClaimFits(Counters(run[..n]), n - 1, a.t);
      }
      StepKeepsLaw(s, a, slots, high);
      Longer(run, actions);
    }
  }

  lemma StartsLawful<T>(s: State<T>)
    requires Init(s)
    ensures Law(s) && D.IsRun([s.counters]) && L.IsRun([s.lookup], [])
  {
    var v := ViewOf(s.lookup);
    forall t | 0 <= t < |s.counters.pcs| ensures ThreadLaw(s.counters, v, t) {
      assert v.spans[t] == SpanOf(s.lookup.consumers[t]);
    }
    forall i: nat ensures OnceLaw(v, s.delivered, i) {
      Counting.SumZero(v.spans, UnreadWeight(i));
    }
  }

  lemma Longer<T>(run: seq<State<T>>, actions: seq<Action<T>>)
    requires |run| == |actions| + 1 && |actions| > 0
    requires var n := |actions|;
             && D.IsRun(Counters(run[..n])) && L.IsRun(Lookups(run[..n]), LookupActions(run[..n], actions[..n - 1]))
             && D.Next(run[n - 1].counters, run[n].counters)
             && L.Enabled(run[n - 1].lookup, LookupAction(run[n - 1], actions[n - 1]))
             && run[n].lookup == L.Apply(run[n - 1].lookup, LookupAction(run[n - 1], actions[n - 1]))
    ensures D.IsRun(Counters(run)) && L.IsRun(Lookups(run), LookupActions(run, actions))
  {
    hide D.Next, L.Enabled, L.Apply, D.Init, L.Init, LookupAction;
    var n := |actions|;
    forall i | 0 <= i < n ensures D.Next(Counters(run)[i], Counters(run)[i + 1]) {
      if i < n - 1 {
        assert D.Next(Counters(run[..n])[i], Counters(run[..n])[i + 1]);
      }
    }
    assert Counters(run[..n])[0] == Counters(run)[0] && Lookups(run[..n])[0] == Lookups(run)[0];
    forall i | 0 <= i < n
      ensures L.Enabled(Lookups(run)[i], LookupActions(run, actions)[i])
      ensures Lookups(run)[i + 1] == L.Apply(Lookups(run)[i], LookupActions(run, actions)[i])
    {
      if i < n - 1 {
        assert Lookups(run[..n])[i] == Lookups(run)[i] && Lookups(run[..n])[i + 1] == Lookups(run)[i + 1];
        assert LookupActions(run[..n], actions[..n - 1])[i] == LookupActions(run, actions)[i];
      }
    }
  }

  /** The run up to its i-th state. */
  lemma UpTo<T>(run: seq<State<T>>, actions: seq<Action<T>>, i: nat)
    requires IsRun(run, actions) && i < |run|
    ensures Law(run[i]) && R.Inv(run[i].lookup)
    ensures D.IsRun(Counters(run[..i + 1])) && Counters(run[..i + 1])[i] == run[i].counters
  {
    hide Law, R.Inv, L.IsRun, D.IsRun, Apply, Enabled, Init;
    assert IsRun(run[..i + 1], actions[..i]);
    RunIsBoth(run[..i + 1], actions[..i]);
    R.RunKeepsInv(Lookups(run[..i + 1]), LookupActions(run[..i + 1], actions[..i]), i);
  }

  /** No claim of the counters ever fails to be there for the lookups, no lookup is ever stopped, and the element
      is in the cell: a thread inside a call can always go on.  And the block that the next element goes into is
      there as soon as the producer has it. */
  lemma NeverBlocked<T>(run: seq<State<T>>, actions: seq<Action<T>>, i: nat, t: nat)
    requires IsRun(run, actions) && i < |run| && t < |run[i].counters.pcs|
    ensures run[i].counters.pcs[t] != D.Idle ==> Enabled(run[i], Run(t))
    ensures t < |run[i].lookup.consumers| && (run[i].lookup.consumers[t] != L.Idle ==> Enabled(run[i], Consume(t)))
    ensures run[i].lookup.producer == L.Ready && |run[i].enqueued| < run[i].lookup.count * BLOCK_SIZE ==>
              |run[i].enqueued| / BLOCK_SIZE in run[i].lookup.blockOf && forall x :: Enabled(run[i], Write(x))
  {
    UpTo(run, actions, i);
    var s := run[i];
    if s.counters.pcs[t].ClaimHead? {
      D.ClaimFits(Counters(run[..i + 1]), i, t);
      ClaimIsThere(s, t);
    }
    R.GoesOn(s.lookup, t);
    if s.lookup.consumers[t].Read? {
      ElementIsThere(s, t);
    }
    if s.lookup.producer == L.Ready && |s.enqueued| < s.lookup.count * BLOCK_SIZE {
      NextIsLive(s.lookup, |s.enqueued|);
    }
  }

  /** The element a consumer reads is in a claim of its own call, is read by no other consumer, has not been
      delivered before, and has the value that was enqueued at its index. */
  lemma ReadsOwnElement<T>(run: seq<State<T>>, actions: seq<Action<T>>, i: nat, t: nat, u: nat)
    requires IsRun(run, actions) && i < |run| && t < |run[i].lookup.consumers| && run[i].lookup.consumers[t].Read?
    ensures var s, c := run[i], run[i].lookup.consumers[t];
            && OwnClaim(s.counters.claims, t, Span(c.next, c.stop)) && c.next !in s.delivered
            && c.next < |s.enqueued| && (c.block, c.next % BLOCK_SIZE) in s.cells
            && s.cells[(c.block, c.next % BLOCK_SIZE)] == s.enqueued[c.next]
    ensures u < |run[i].lookup.consumers| && u != t && run[i].lookup.consumers[u].Read? ==>
              run[i].lookup.consumers[u].next != run[i].lookup.consumers[t].next
  {
    UpTo(run, actions, i);
    var s, v := run[i], ViewOf(run[i].lookup);
    assert ThreadLaw(s.counters, v, t) && v.spans[t] == SpanOf(s.lookup.consumers[t]);
    R.GoesOn(s.lookup, t);
    ElementIsThere(s, t);
    ConsumeKeeps(s, t);
    R.StepSpans(s.lookup, t);
    if u < |s.lookup.consumers| && u != t && s.lookup.consumers[u].Read? {
      assert v.spans[u] == SpanOf(s.lookup.consumers[u]);
      R.GoesOn(s.lookup, u);
      R.StepSpans(s.lookup, u);
      var slots, high := D.RunKeepsInv(Counters(run[..i + 1]), i);
      SpansAreApart(s.counters, v, t, u);
    }
  }

  /** Whatever has been delivered at an index is what was enqueued there; and once every call has returned,
      exactly the elements claimed have been delivered: each index below the head once, and no other. */
  lemma DeliversWhatWasEnqueued<T>(run: seq<State<T>>, actions: seq<Action<T>>, i: nat, at: nat)
    requires IsRun(run, actions) && i < |run|
    ensures at in run[i].delivered ==> at < run[i].lookup.head <= |run[i].enqueued| && run[i].delivered[at] == run[i].enqueued[at]
    ensures (forall t | 0 <= t < |run[i].lookup.consumers| :: run[i].lookup.consumers[t] == L.Idle) ==>
              (at in run[i].delivered <==> at < run[i].lookup.head)
  {
    UpTo(run, actions, i);
    var s := run[i];
    if forall t | 0 <= t < |s.lookup.consumers| :: s.lookup.consumers[t] == L.Idle {
      AllDelivered(ViewOf(s.lookup), s.enqueued, s.delivered, at);
    }
  }
}
