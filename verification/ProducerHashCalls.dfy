/** get_or_add_implicit_producer fails only when memory does. */
module ProducerHashCalls {
  import opened Counting
  import opened Options
  import opened ProducerHash

  /** At action k an allocation of thread t failed: of a bigger table, or of its producer. */
  ghost predicate RanOut(s: State, a: Action, t: nat) {
    && a == Run(t, false) && t < |s.pcs|
    && (s.pcs[t].CreateProducer? || (s.pcs[t].Resize? && s.pcs[t].main < |s.tables| && s.pcs[t].newCount >= |s.tables[s.pcs[t].main]| / 2))
  }

  /** Memory failed thread t since its last call, before state i. */
  ghost predicate OutOfMemory(run: seq<State>, actions: seq<Action>, i: nat, t: nat) {
    i <= |actions| < |run| &&
    exists k | 0 <= k < i :: RanOut(run[k], actions[k], t) && forall j | k < j < i :: actions[j] != Call(t)
  }

  /** The thread has given up, or is about to. */
  predicate Fails(pc: Pc) { pc.FailResize? || pc.ClearAndFail? || pc.FailCreate? || pc == Done(None) }

  /** A thread never finds its own key without its value. */
  lemma FindsValue(s: State, t: nat, aux: Aux)
    requires Inv(s, aux) && t < |s.pcs| && s.pcs[t].Probe?
    ensures s.pcs[t].table < |s.tables| && s.tables[s.pcs[t].table] != []
    ensures var slots := s.tables[s.pcs[t].table];
            var e := slots[Index(s.hashes[t], s.pcs[t].k, |slots|)];
            e.Entry? && e.key == t ==> e.value.Some?
  {
    assert ValueLaw(s, s.pcs[t].table, aux);
    hide CountLaw, ThreadsLaw, TableLaw;
  }

  lemma FailsFor(s: State, a: Action, t: nat, aux: Aux)
    requires Inv(s, aux) && Enabled(s, a) && t < |s.pcs| && t < |Apply(s, a).pcs| && Fails(Apply(s, a).pcs[t])
    ensures a != Call(t) && (Fails(s.pcs[t]) || RanOut(s, a, t))
  {
    hide Step, Fails, RanOut, WellTyped;
    if s.pcs[t].Probe? {
      FindsValue(s, t, aux);
    }
    hide Inv;
    if a.Run? {
      StepFails(s, a.t, a.luck, t);
    } else {
      assert Fails(Apply(s, a).pcs[t]) ==> Fails(s.pcs[t]) && a.t != t by {
        CallFailsNobody(s, a.t, t);
      }
    }
  }

  lemma CallFailsNobody(s: State, u: nat, t: nat)
    requires Enabled(s, Call(u)) && t < |s.pcs|
    ensures t < |Apply(s, Call(u)).pcs| && (Fails(Apply(s, Call(u)).pcs[t]) ==> u != t && Fails(s.pcs[t]))
  {}

  lemma StepFails(s: State, u: nat, luck: bool, t: nat)
    requires WellTyped(s) && u < |s.pcs| && t < |s.pcs|
    requires s.pcs[t].Probe? ==>
               && s.pcs[t].table < |s.tables| && s.tables[s.pcs[t].table] != []
               && var slots := s.tables[s.pcs[t].table];
                  var e := slots[Index(s.hashes[t], s.pcs[t].k, |slots|)];
                  e.Entry? && e.key == t ==> e.value.Some?
    ensures t < |Step(s, u, luck).pcs|
    ensures Fails(Step(s, u, luck).pcs[t]) ==> Fails(s.pcs[t]) || RanOut(s, Run(u, luck), t)
  {
    assert WellTypedPc(s, s.pcs[u]);
    hide WellTyped, GrowTo, Index;
  }

  lemma {:induction false} FailureHasCause(run: seq<State>, actions: seq<Action>, i: nat, t: nat)
    requires IsRun(run, actions) && i < |run| && t < |run[i].pcs| && Fails(run[i].pcs[t])
    ensures OutOfMemory(run, actions, i, t)
  {
    if i > 0 {
      var s, a := run[i - 1], actions[i - 1];
      var aux := RunKeepsInv(run, actions, i - 1);
      assert Enabled(s, a) && run[i] == Apply(s, a);
      hide Inv, IsRun, Fails, RanOut, Apply;
      PcsStay(s, a);
      FailsFor(s, a, t, aux);
      if !RanOut(s, a, t) {
        FailureHasCause(run, actions, i - 1, t);
        CauseStays(run, actions, i - 1, t);
      } else {
        CauseIsNow(run, actions, i - 1, t);
      }
    }
  }

  lemma CauseIsNow(run: seq<State>, actions: seq<Action>, i: nat, t: nat)
    requires i < |actions| < |run| && RanOut(run[i], actions[i], t)
    ensures OutOfMemory(run, actions, i + 1, t)
  {}

  lemma CauseStays(run: seq<State>, actions: seq<Action>, i: nat, t: nat)
    requires OutOfMemory(run, actions, i, t) && i < |actions| && actions[i] != Call(t)
    ensures OutOfMemory(run, actions, i + 1, t)
  {
    var k :| 0 <= k < i && RanOut(run[k], actions[k], t) && forall j | k < j < i :: actions[j] != Call(t);
    assert forall j | k < j < i + 1 :: actions[j] != Call(t);
  }

  lemma PcsStay(s: State, a: Action)
    requires Enabled(s, a)
    ensures |Apply(s, a).pcs| == |s.pcs|
  {}

  /** A call returns no producer only if, since it began, an allocation of its own has failed. */
  lemma NoneOnlyIfOutOfMemory(run: seq<State>, actions: seq<Action>, i: nat, t: nat)
    requires IsRun(run, actions) && i < |run| && t < |run[i].pcs| && run[i].pcs[t] == Done(None)
    ensures OutOfMemory(run, actions, i, t)
  {
    FailureHasCause(run, actions, i, t);
  }

  // ---- A call alone ------------------------------------------------------------------

  /** The state after n steps of thread t alone, with all its allocations succeeding. */
  ghost function Alone(s: State, t: nat, n: nat): State
    requires t < |s.pcs| && WellTyped(s)
    decreases n
  {
    if n == 0 then s
    else
      StepIsTyped(s, t, true);
      Alone(Step(s, t, true), t, n - 1)
  }

  /** How far a call has still to go: its stage, then how much of the table is left to probe. */
  function Stage(pc: Pc): nat {
    match pc
    case LoadMain => 12
    case Probe(_, _, _) => 11
    case Readd(_, _, _) => 10
    case Count(_) => 9
    case WaitForTable(_) => 8
    case TryLock(_, _) => 7
    case Reload(_) => 6
    case Resize(_, _) => 5
    case Clear(_, _) => 4
    case CreateProducer(_, _) => 3
    case Insert(_, _, _, _) => 2
    case ReaddValue(_, _, _) => 1
    case InsertValue(_, _, _, _) => 1
    case _ => 0
  }

  function TablesLeft(pc: Pc): nat { if pc.Probe? then pc.table else 0 }

  function SlotsLeft(s: State, pc: Pc): int
    requires WellTypedPc(s, pc)
  {
    match pc
    case Probe(_, j, k) => |s.tables[j]| - k
    case Readd(m, k, _) => |s.tables[m]| - k
    case Insert(m, _, k, _) => |s.tables[m]| - k
    case _ => 0
  }

  /** Whoever is about to leave the resize lock, not having failed, has a table with room for its count. */
  predicate TableIsBig(s: State, pc: Pc) { pc.Clear? ==> pc.main < |s.tables| && pc.newCount < |s.tables[pc.main]| / 2 }

  lemma StepKeepsBig(s: State, u: nat, luck: bool, t: nat)
    requires WellTyped(s) && u < |s.pcs| && t < |s.pcs| && TableIsBig(s, s.pcs[t])
    ensures t < |Step(s, u, luck).pcs| && TableIsBig(Step(s, u, luck), Step(s, u, luck).pcs[t])
  {
    StepKeepsShape(s, u, luck);
    assert WellTypedPc(s, s.pcs[u]);
    assert s.pcs[u].Resize? ==> |s.tables[s.pcs[u].main]| > 0;
    hide WellTyped, Index;
  }

  lemma ActionKeepsBig(s: State, a: Action, t: nat)
    requires Enabled(s, a) && t < |s.pcs| && TableIsBig(s, s.pcs[t])
    ensures t < |Apply(s, a).pcs| && TableIsBig(Apply(s, a), Apply(s, a).pcs[t])
  {
    if a.Run? {
      StepKeepsBig(s, a.t, a.luck, t);
    }
    hide Step, WellTyped;
  }

  lemma {:induction false} TablesAreBig(run: seq<State>, actions: seq<Action>, i: nat, t: nat)
    requires IsRun(run, actions) && i < |run| && t < |run[i].pcs|
    ensures TableIsBig(run[i], run[i].pcs[t])
  {
    if i > 0 {
      assert Enabled(run[i - 1], actions[i - 1]) && run[i] == Apply(run[i - 1], actions[i - 1]);
      PcsStay(run[i - 1], actions[i - 1]);
      hide Apply, Enabled, TableIsBig;
      TablesAreBig(run, actions, i - 1, t);
      ActionKeepsBig(run[i - 1], actions[i - 1], t);
    }
  }

  /** The call is on its way to a producer: it has one, or is where nothing but memory can stop it. */
  predicate OnItsWay(s: State, pc: Pc) {
    match pc
    case Done(r) => r.Some?
    case Clear(_, _) => TableIsBig(s, pc)
    case LoadMain => !s.resizing
    case Probe(_, _, _) => !s.resizing
    case Count(_) => !s.resizing
    case WaitForTable(_) => !s.resizing
    case TryLock(_, _) => !s.resizing
    case _ => Stage(pc) > 0
  }

  /** A step has brought thread t nearer to its end. */
  ghost predicate Nearer(s: State, s': State, t: nat)
    requires t < |s.pcs| && t < |s'.pcs| && WellTypedPc(s, s.pcs[t]) && WellTypedPc(s', s'.pcs[t])
  {
    var pc, pc' := s.pcs[t], s'.pcs[t];
    || Stage(pc') < Stage(pc)
    || (Stage(pc') == Stage(pc) && TablesLeft(pc') < TablesLeft(pc))
    || (Stage(pc') == Stage(pc) && TablesLeft(pc') == TablesLeft(pc) && SlotsLeft(s', pc') < SlotsLeft(s, pc))
  }

  lemma ProbesOnItsWay(s: State, t: nat, aux: Aux)
    requires Inv(s, aux) && t < |s.pcs| && OnItsWay(s, s.pcs[t]) && s.pcs[t].Probe?
    ensures var s' := Step(s, t, true); WellTyped(s') && t < |s'.pcs| && OnItsWay(s', s'.pcs[t]) && Nearer(s, s', t)
  {
    StepIsTyped(s, t, true);
    FindsValue(s, t, aux);
    hide Inv;
  }

  lemma PlacesOnItsWay(s: State, t: nat)
    requires WellTyped(s) && t < |s.pcs| && OnItsWay(s, s.pcs[t]) && WellTyped(Step(s, t, true))
    requires var pc := s.pcs[t]; pc.Readd? || pc.ReaddValue? || pc.Insert? || pc.InsertValue?
    ensures var s' := Step(s, t, true); t < |s'.pcs| && OnItsWay(s', s'.pcs[t]) && Nearer(s, s', t)
  {
    hide WellTyped, GrowTo, Index;
  }

  lemma CountsOnItsWay(s: State, t: nat)
    requires WellTyped(s) && t < |s.pcs| && OnItsWay(s, s.pcs[t]) && WellTyped(Step(s, t, true))
    requires var pc := s.pcs[t]; pc.LoadMain? || pc.Count? || pc.WaitForTable? || pc.TryLock? || pc.CreateProducer?
    ensures var s' := Step(s, t, true); t < |s'.pcs| && OnItsWay(s', s'.pcs[t]) && Nearer(s, s', t)
  {
    hide WellTyped, GrowTo, Index;
  }

  lemma GrowsOnItsWay(s: State, t: nat)
    requires WellTyped(s) && t < |s.pcs| && OnItsWay(s, s.pcs[t]) && WellTyped(Step(s, t, true))
    requires var pc := s.pcs[t]; pc.Reload? || pc.Resize? || pc.Clear?
    ensures var s' := Step(s, t, true); t < |s'.pcs| && OnItsWay(s', s'.pcs[t]) && Nearer(s, s', t)
  {
    assert WellTypedPc(s, s.pcs[t]);
    assert s.pcs[t].Resize? ==> |s.tables[s.pcs[t].main]| > 0;
    hide WellTyped, Index;
  }

  lemma StepsOnItsWay(s: State, t: nat, aux: Aux)
    requires Inv(s, aux) && t < |s.pcs| && OnItsWay(s, s.pcs[t]) && !s.pcs[t].Done?
    ensures var s' := Step(s, t, true); WellTyped(s') && t < |s'.pcs| && OnItsWay(s', s'.pcs[t]) && Nearer(s, s', t)
  {
    StepIsTyped(s, t, true);
    var pc := s.pcs[t];
    hide Step, WellTyped, CountLaw, TablesLaw, ThreadsLaw, Nearer;
    if pc.Probe? {
      ProbesOnItsWay(s, t, aux);
    } else if pc.Readd? || pc.ReaddValue? || pc.Insert? || pc.InsertValue? {
      PlacesOnItsWay(s, t);
    } else if pc.Reload? || pc.Resize? || pc.Clear? {
      GrowsOnItsWay(s, t);
    } else {
      CountsOnItsWay(s, t);
    }
  }

  lemma StepsRemain(s: State, t: nat, aux: Aux)
    requires Inv(s, aux) && t < |s.pcs|
    ensures SlotsLeft(s, s.pcs[t]) >= 0
  {
    assert ThreadLaw(s, t, aux);
    var pc := s.pcs[t];
    if pc.Probe? {
      ProbeIsShort(s.tables[pc.table], s.hashes, aux.tickets, t, s.hashes[t], pc.k);
    } else if pc.Readd? || pc.Insert? {
      ProbeIsShort(s.tables[pc.main], s.hashes, aux.tickets, t, s.hashes[t], pc.k);
    }
  }

  lemma {:induction false} Arrives(s: State, t: nat, aux: Aux) returns (n: nat)
    requires Inv(s, aux) && t < |s.pcs| && OnItsWay(s, s.pcs[t])
    ensures t < |Alone(s, t, n).pcs| && Alone(s, t, n).pcs[t].Done? && Alone(s, t, n).pcs[t].result.Some?
    decreases Stage(s.pcs[t]), TablesLeft(s.pcs[t]), SlotsLeft(s, s.pcs[t])
  {
    if s.pcs[t].Done? {
      n := 0;
    } else {
      StepsRemain(s, t, aux);
      StepsOnItsWay(s, t, aux);
      var aux' := StepKeepsInv(s, t, true, aux);
      StepsRemain(Step(s, t, true), t, aux');
      n := Arrives(Step(s, t, true), t, aux');
      n := n + 1;
    }
  }

  /** From any reachable state, wherever this call and those of other threads are, unless it has failed already or
      another thread is resizing: left alone, with memory there when it asks for it, it returns a producer. */
  lemma AloneItSucceeds(run: seq<State>, actions: seq<Action>, i: nat, t: nat) returns (n: nat)
    requires IsRun(run, actions) && i < |run| && t < |run[i].pcs| && !run[i].pcs[t].Idle? && !Fails(run[i].pcs[t])
    requires !run[i].resizing || HasLock(run[i].pcs[t])
    ensures WellTyped(run[i])
    ensures t < |Alone(run[i], t, n).pcs| && Alone(run[i], t, n).pcs[t].Done? && Alone(run[i], t, n).pcs[t].result.Some?
  {
    var aux := RunKeepsInv(run, actions, i);
    TablesAreBig(run, actions, i, t);
    hide Inv, IsRun;
    n := Arrives(run[i], t, aux);
  }

  /** In particular a whole call that nothing runs beside does, if memory is there. */
  lemma LoneCallSucceeds(run: seq<State>, actions: seq<Action>, i: nat, t: nat) returns (n: nat)
    requires IsRun(run, actions) && i < |run| && t < |run[i].pcs| && run[i].pcs[t].Idle? && !run[i].resizing
    ensures Enabled(run[i], Call(t)) && WellTyped(Apply(run[i], Call(t))) && t < |Apply(run[i], Call(t)).pcs|
    ensures var s' := Alone(Apply(run[i], Call(t)), t, n);
            t < |s'.pcs| && s'.pcs[t].Done? && s'.pcs[t].result.Some?
  {
    var aux := RunKeepsInv(run, actions, i);
    var aux' := ApplyKeepsInv(run[i], Call(t), aux);
    n := Arrives(Apply(run[i], Call(t)), t, aux');
  }
}
