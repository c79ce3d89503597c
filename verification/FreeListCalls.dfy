/** What one call of add or try_get comes to. */
module FreeListCalls {
  import opened Counting
  import opened FreeList

  /** The state after n steps of thread t alone. */
  ghost function Alone(s: State, t: nat, n: nat): State
    requires t < |s.pcs| && WellTyped(s)
    decreases n
  {
    if n == 0 then s
    else
      StepIsTyped(s, t);
      Alone(Step(s, t), t, n - 1)
  }

  lemma AloneStep(s: State, t: nat, n: nat)
    requires t < |s.pcs| && WellTyped(s) && n > 0
    ensures t < |Step(s, t).pcs| && WellTyped(Step(s, t)) && Alone(s, t, n) == Alone(Step(s, t), t, n - 1)
  {
    StepIsTyped(s, t);
  }

  /** No call is in progress. */
  ghost predicate AllIdle(s: State) { forall t | 0 <= t < |s.pcs| :: s.pcs[t].Idle? }

  /** With nobody else in a call try_get takes the first node of the list, leaving the rest, and gives it to the
      caller; if the list is empty it comes back with nothing and has changed nothing. */
  lemma LoneTryGet(run: seq<State>, i: nat, t: nat, list: seq<Node>)
    requires IsRun(run) && i < |run| && t < |run[i].pcs| && AllIdle(run[i]) && IsList(run[i], list)
    ensures WellTyped(run[i]) && WellTyped(Apply(run[i], CallTryGet(t))) && t < |Apply(run[i], CallTryGet(t)).pcs|
    ensures var s, s' := run[i], Alone(Apply(run[i], CallTryGet(t)), t, 7);
            && AllIdle(s')
            && if list == [] then s' == s
               else s'.owned == s.owned[t := s.owned[t] + {list[0]}] && IsList(s', list[1..]) && s'.next == s.next
  {
    var s := run[i];
    var list', roles := RunKeepsInv(run, i);
    ListIsUnique(s, list, list', 0);
    var a := Apply(s, CallTryGet(t));
    assert Enabled(s, CallTryGet(t));
    if list == [] {
      assert Step(a, t) == s;
      AloneStep(a, t, 7);
      IdleStays(s, t, 6);
    } else {
      var n := list[0];
      Quiescent(run, i, list, n);
      TakesHead(s, t, n);
      ListPop(s, Alone(a, t, 7), list);
    }
  }

  lemma {:induction false} IdleStays(s: State, t: nat, n: nat)
    requires WellTyped(s) && t < |s.pcs| && s.pcs[t].Idle?
    ensures Alone(s, t, n) == s
    decreases n
  {
    if n > 0 {
      IdleStays(s, t, n - 1);
    }
  }

  lemma TakesHead(s: State, t: nat, n: Node)
    requires WellTyped(s) && t < |s.pcs| && s.pcs[t].Idle? && s.head == To(n) && s.refs[n] == 1
    requires WellTyped(Apply(s, CallTryGet(t)))
    ensures Alone(Apply(s, CallTryGet(t)), t, 7) == s.(head := s.next[n], refs := s.refs[n := 0], owned := s.owned[t := s.owned[t] + {n}])
  {
    hide Alone, Step;
    var s1 := Apply(s, CallTryGet(t));
    TakesReference(s1, t, n);
    var s4 := s1.(pcs := s1.pcs[t := GetLoadNext(n)], refs := s.refs[n := 2]);
    TakesNode(s4, t, n);
    assert s4.pcs[t := Idle] == s.pcs;
    assert s4.refs[n := 0] == s.refs[n := 0];
  }

  lemma TakesReference(s: State, t: nat, n: Node)
    requires WellTyped(s) && t < |s.pcs| && s.pcs[t].GetLoadHead? && s.head == To(n) && s.refs[n] == 1
    ensures var s' := s.(pcs := s.pcs[t := GetLoadNext(n)], refs := s.refs[n := 2]);
            WellTyped(s') && Alone(s, t, 7) == Alone(s', t, 4)
  {
    AloneStep(s, t, 7);
    var s2 := Step(s, t);
    AloneStep(s2, t, 6);
    var s3 := Step(s2, t);
    AloneStep(s3, t, 5);
    hide Alone, WellTyped;
    assert Step(s3, t) == s.(pcs := s.pcs[t := GetLoadNext(n)], refs := s.refs[n := 2]);
  }

  lemma TakesNode(s: State, t: nat, n: Node)
    requires WellTyped(s) && t < |s.pcs| && s.pcs[t] == GetLoadNext(n) && s.head == To(n) && s.refs[n] == 2
    ensures Alone(s, t, 4) == s.(head := s.next[n], refs := s.refs[n := 0], pcs := s.pcs[t := Idle], owned := s.owned[t := s.owned[t] + {n}])
  {
    AloneStep(s, t, 4);
    var s5 := Step(s, t);
    AloneStep(s5, t, 3);
    var s6 := Step(s5, t);
    AloneStep(s6, t, 2);
    var s7 := Step(s6, t);
    AloneStep(s7, t, 1);
    hide WellTyped;
    assert s7 == s.(head := s.next[n], pcs := s.pcs[t := GetDropTwo(n)]);
    assert Alone(Step(s7, t), t, 0) == Step(s7, t);
  }

  /** With nobody else in a call add puts the node in front of the list. */
  lemma LoneAdd(run: seq<State>, i: nat, t: nat, n: Node, list: seq<Node>)
    requires IsRun(run) && i < |run| && t < |run[i].pcs| && t < |run[i].owned| && n in run[i].owned[t]
    requires AllIdle(run[i]) && IsList(run[i], list)
    ensures WellTyped(run[i]) && WellTyped(Apply(run[i], CallAdd(t, n))) && t < |Apply(run[i], CallAdd(t, n)).pcs|
    ensures var s, s' := run[i], Alone(Apply(run[i], CallAdd(t, n)), t, 5);
            AllIdle(s') && s'.owned == s.owned[t := s.owned[t] - {n}] && IsList(s', [n] + list)
  {
    var s := run[i];
    OwnedIsOff(run, i, t, n, list);
    PutsInFront(s, t, n);
    var s1 := s.(pcs := s.pcs, head := To(n), refs := s.refs[n := 1], next := s.next[n := s.head], owned := s.owned[t := s.owned[t] - {n}]);
    assert IsList(s1, [n] + list) by {
      ListPush(s.(next := s1.next), s1, list, n);
    }
  }

  lemma OwnedIsOff(run: seq<State>, i: nat, t: nat, n: Node, list: seq<Node>)
    requires IsRun(run) && i < |run| && t < |run[i].owned| && n in run[i].owned[t] && AllIdle(run[i])
    requires IsList(run[i], list)
    requires t < |run[i].pcs|
    ensures WellTyped(run[i]) && Enabled(run[i], CallAdd(t, n)) && n !in list && n < |run[i].refs|
    ensures run[i].refs[n] == 0
    ensures WellTyped(Apply(run[i], CallAdd(t, n)))
  {
    var list', roles := RunKeepsInv(run, i);
    ListIsUnique(run[i], list, list', 0);
    Quiescent(run, i, list, n);
    assert roles[n] == Held(t);
    var afterList, afterRoles := ApplyKeepsInv(run[i], CallAdd(t, n), list', roles);
  }

  lemma PutsInFront(s: State, t: nat, n: Node)
    requires WellTyped(s) && t < |s.pcs| && s.pcs[t].Idle? && n in s.owned[t] && s.refs[n] == 0
    requires WellTyped(Apply(s, CallAdd(t, n)))
    ensures Alone(Apply(s, CallAdd(t, n)), t, 5)
            == s.(head := To(n), refs := s.refs[n := 1], next := s.next[n := s.head], owned := s.owned[t := s.owned[t] - {n}])
  {
    var s1 := Apply(s, CallAdd(t, n));
    AloneStep(s1, t, 5);
    var s2 := Step(s1, t);
    AloneStep(s2, t, 4);
    var s3 := Step(s2, t);
    AloneStep(s3, t, 3);
    var s4 := Step(s3, t);
    AloneStep(s4, t, 2);
    var s5 := Step(s4, t);
    AloneStep(s5, t, 1);
    assert s3 == s1.(refs := s.refs[n := SHOULD_BE_ON_FREELIST], pcs := s.pcs[t := PushStoreNext(n, s.head, FromAdd)]);
    assert s5 == s1.(refs := s.refs[n := 1], next := s.next[n := s.head], pcs := s.pcs[t := PushCasHead(n, s.head, FromAdd)]);
    assert Step(s5, t).pcs == s.pcs;
  }

  // ---- Beside others -----------------------------------------------------------------

  /** From state k thread t goes on, having loaded a head that was null. */
  ghost predicate LoadsNull(run: seq<State>, k: nat, t: nat) {
    && k + 1 < |run| && t < |run[k].pcs| && t < |run[k + 1].pcs| && run[k].head == Null
    && (run[k].pcs[t].GetLoadHead? || run[k].pcs[t].GetCasHead?) && run[k + 1].pcs[t] != run[k].pcs[t]
  }

  ghost predicate FoundNone(run: seq<State>, i: nat, j: nat, t: nat) {
    exists k | i <= k < j :: LoadsNull(run, k, t)
  }

  /** From state k thread t goes on, having taken node n off the front of the list. */
  ghost predicate TakesFirst(run: seq<State>, k: nat, t: nat, n: Node) {
    && k + 1 < |run| && t < |run[k].pcs| && run[k].pcs[t].GetCasHead? && run[k].head == To(n)
    && n < |run[k].next| && run[k + 1].head == run[k].next[n]
  }

  ghost predicate Took(run: seq<State>, i: nat, j: nat, t: nat, n: Node) {
    exists k | i <= k < j :: TakesFirst(run, k, t, n)
  }

  /** What thread t, in a call of try_get since state i, has seen by state j. */
  ghost predicate Seen(run: seq<State>, i: nat, j: nat, t: nat)
    requires i <= j < |run| && t < |run[j].pcs|
  {
    match run[j].pcs[t]
    case GetLoadHead => true
    case GetLoadRefs(_) => true
    case GetCasRefs(_, _) => true
    case GetLoadNext(_) => true
    case GetCasHead(_, _) => true
    case GetAssert(n) => Took(run, i, j, t, n)
    case GetDropTwo(n) => Took(run, i, j, t, n)
    case GetDropOne(_, h) => h.Null? ==> FoundNone(run, i, j, t)
    case PushLoadHead(_, c) => c.FromTryGet? && (c.head.Null? ==> FoundNone(run, i, j, t))
    case PushStoreNext(_, _, c) => c.FromTryGet? && (c.head.Null? ==> FoundNone(run, i, j, t))
    case PushStoreRefs(_, _, c) => c.FromTryGet? && (c.head.Null? ==> FoundNone(run, i, j, t))
    case PushCasHead(_, _, c) => c.FromTryGet? && (c.head.Null? ==> FoundNone(run, i, j, t))
    case PushGiveUp(_, _, c) => c.FromTryGet? && (c.head.Null? ==> FoundNone(run, i, j, t))
    case _ => false
  }

  lemma SeenStays(run: seq<State>, i: nat, j: nat, t: nat)
    requires i <= j && j + 1 < |run|
    ensures FoundNone(run, i, j, t) ==> FoundNone(run, i, j + 1, t)
    ensures forall n | Took(run, i, j, t, n) :: Took(run, i, j + 1, t, n)
  {}

  /** The step of another thread, or of client code. */
  lemma OthersKeepSeen(run: seq<State>, i: nat, j: nat, t: nat)
    requires i <= j && j + 1 < |run| && t < |run[j].pcs| && Seen(run, i, j, t)
    requires t < |run[j + 1].pcs| && run[j + 1].pcs[t] == run[j].pcs[t]
    ensures Seen(run, i, j + 1, t)
  {
    SeenStays(run, i, j, t);
    hide FoundNone, Took;
  }

  /** A step of the call's own: it goes on, or it returns with the node it took, or it returns with nothing and the
      list was empty at some moment. */
  lemma OwnKeepsSeen(run: seq<State>, i: nat, j: nat, t: nat)
    requires i <= j && j + 1 < |run| && t < |run[j].pcs| && WellTyped(run[j]) && Seen(run, i, j, t)
    requires run[j + 1] == Step(run[j], t) && t < |run[j].owned|
    requires run[j].pcs[t].GetCasHead? ==> run[j].pcs[t].next == run[j].next[run[j].pcs[t].node]
    ensures t < |run[j + 1].pcs| && t < |run[j + 1].owned|
    ensures !run[j + 1].pcs[t].Idle? ==> Seen(run, i, j + 1, t) && run[j + 1].owned == run[j].owned
    ensures run[j + 1].pcs[t].Idle? ==>
              || (FoundNone(run, i, j + 1, t) && run[j + 1].owned == run[j].owned)
              || (run[j].pcs[t].GetDropTwo? && Took(run, i, j, t, run[j].pcs[t].node)
                  && run[j + 1].owned == run[j].owned[t := run[j].owned[t] + {run[j].pcs[t].node}])
  {
    SeenStays(run, i, j, t);
    var pc := run[j].pcs[t];
    if (pc.GetLoadHead? || pc.GetCasHead?) && run[j].head.Null? {
      assert LoadsNull(run, j, t);
    } else if pc.GetCasHead? && run[j].head == To(pc.node) {
      assert TakesFirst(run, j, t, pc.node);
    }
    hide FoundNone, Took;
  }

  lemma OthersMove(s: State, a: Action, t: nat)
    requires WellTyped(s) && Enabled(s, a) && a != Run(t) && t < |s.pcs| && !s.pcs[t].Idle?
    ensures t < |Apply(s, a).pcs| && Apply(s, a).pcs[t] == s.pcs[t]
  {
    hide WellTyped;
  }

  lemma CallGoesOn(run: seq<State>, i: nat, j: nat, t: nat)
    requires IsRun(run) && i <= j && j + 1 < |run| && t < |run[j].pcs| && !run[j].pcs[t].Idle? && Seen(run, i, j, t)
    ensures t < |run[j + 1].pcs| && t < |run[j].owned| && t < |run[j + 1].owned|
    ensures !run[j + 1].pcs[t].Idle? ==> Seen(run, i, j + 1, t)
    ensures run[j + 1].pcs[t].Idle? ==>
              || (FoundNone(run, i, j + 1, t) && run[j + 1].owned == run[j].owned)
              || exists n :: Took(run, i, j, t, n) && run[j + 1].owned == run[j].owned[t := run[j].owned[t] + {n}]
  {
    hide Init, Seen, IsList, ListLaw, OwnedLaw, NodesLaw, Step, IsPc, FoundNone, Took;
    var list, roles := RunKeepsInv(run, j);
    assert Next(run[j], run[j + 1]);
    var a :| Enabled(run[j], a) && run[j + 1] == Apply(run[j], a);
    assert ThreadLaw(run[j], t, roles);
    if a == Run(t) {
      OwnKeepsSeen(run, i, j, t);
    } else {
      OthersMove(run[j], a, t);
      OthersKeepSeen(run, i, j, t);
      OwnersStay(run[j], a, t);
    }
  }

  lemma OwnersStay(s: State, a: Action, t: nat)
    requires WellTyped(s) && Enabled(s, a) && t < |s.pcs|
    ensures t < |s.owned| && t < |Apply(s, a).owned|
  {}

  lemma {:induction false} CallSees(run: seq<State>, i: nat, j: nat, t: nat)
    requires IsRun(run) && i <= j < |run| && t < |run[i].pcs| && run[i].pcs[t].GetLoadHead?
    requires forall k | i <= k <= j :: t < |run[k].pcs| && !run[k].pcs[t].Idle?
    ensures Seen(run, i, j, t)
  {
    hide IsRun;
    if i < j {
      hide Seen;
      CallSees(run, i, j - 1, t);
      CallGoesOn(run, i, j - 1, t);
    }
  }

  /** A call of try_get that began at state i and returned at state j, whatever ran beside it: it gives its caller one
      node, which it took off the front of the list at some moment in between, or it gives nothing, and at some
      moment in between the list was empty. */
  lemma TryGetTakesOrFindsNone(run: seq<State>, i: nat, j: nat, t: nat)
    requires IsRun(run) && i < j < |run| && t < |run[i].pcs| && run[i].pcs[t].GetLoadHead?
    requires forall k | i <= k < j :: t < |run[k].pcs| && !run[k].pcs[t].Idle?
    requires t < |run[j].pcs| && run[j].pcs[t].Idle?
    ensures t < |run[j - 1].owned| && t < |run[j].owned|
    ensures || (FoundNone(run, i, j, t) && run[j].owned == run[j - 1].owned)
            || exists n :: Took(run, i, j, t, n) && run[j].owned == run[j - 1].owned[t := run[j - 1].owned[t] + {n}]
  {
    hide IsRun, Seen, FoundNone, Took;
    CallSees(run, i, j - 1, t);
    CallGoesOn(run, i, j - 1, t);
    SeenStays(run, i, j - 1, t);
  }

  // ---- Left alone --------------------------------------------------------------------

  /** What a thread in the loop of try_get has before it, at most, with `head` as its local. */
  function LoopRank(s: State, head: Ptr): nat { if head.Null? then 0 else if head == s.head then 6 else 20 }

  /** Dropping one reference leaves others. */
  predicate Shared(s: State, n: Node) { n < |s.refs| && Masked(s.refs[n]) >= 2 }

  /** How many steps the thread needs at most to return if no other takes any. */
  function Rank(s: State, pc: Pc): nat {
    match pc
    case Idle => 0
    case GetDropTwo(_) => 1
    case GetAssert(_) => 2
    case GetCasHead(n, _) => if s.head == To(n) then 3 else if Shared(s, n) then 17 else 30
    case GetLoadNext(n) => if s.head == To(n) then 4 else if Shared(s, n) then 18 else 31
    case GetCasRefs(n, r) => if s.head == To(n) && n < |s.refs| && s.refs[n] == r then 5 else 19
    case GetLoadRefs(n) => LoopRank(s, To(n))
    case GetLoadHead => 7
    case GetDropOne(n, h) => if n < |s.refs| && s.refs[n] == SHOULD_BE_ON_FREELIST + 1 then 29 else 1 + LoopRank(s, h)
    case PushCasHead(_, h, _) => if s.head == h then 21 else 25
    case PushStoreRefs(_, h, _) => if s.head == h then 22 else 26
    case PushStoreNext(_, h, _) => if s.head == h then 23 else 27
    case PushLoadHead(_, _) => 24
    case PushGiveUp(_, h, _) => if s.head == h then 24 else 28
    case AddFlag(_) => 25
  }

  /** The count behind the word of a node. */
  lemma MaskedIs(k: nat)
    requires k < SHOULD_BE_ON_FREELIST
    ensures Masked(k) == k && Masked(SHOULD_BE_ON_FREELIST + k) == k
  {}

  /** The word of a node is at least its holders, with or without the flag. */
  lemma WordIs(s: State, n: Node, list: seq<Node>, roles: seq<Role>) returns (k: nat)
    requires Inv(s, list, roles) && n < |s.refs|
    ensures Holders(s, n) <= k < SHOULD_BE_ON_FREELIST && (s.refs[n] == k || s.refs[n] == SHOULD_BE_ON_FREELIST + k)
    ensures roles[n] == Listed ==> k > 0
  {
    HoldersBound(s, n);
    assert RefLaw(s, roles[n], n);
    hide IsList, ListLaw, OwnedLaw, ThreadsLaw, Holders;
    k := if s.refs[n] >= SHOULD_BE_ON_FREELIST then s.refs[n] - SHOULD_BE_ON_FREELIST else s.refs[n];
  }

  /** The node that the head points at can be taken a reference on. */
  lemma HeadIsListed(s: State, list: seq<Node>, roles: seq<Role>)
    requires Inv(s, list, roles) && s.head.To?
    ensures s.head.node < |s.refs| && Masked(s.refs[s.head.node]) > 0
  {
    assert s.head.node == list[0] && roles[list[0]] == Listed;
    var k := WordIs(s, s.head.node, list, roles);
    MaskedIs(k);
  }

  /** Taking a reference on a node that has one makes two. */
  lemma TakingShares(s: State, t: nat, list: seq<Node>, roles: seq<Role>)
    requires Inv(s, list, roles) && t < |s.pcs| && s.pcs[t].GetCasRefs? && s.refs[s.pcs[t].node] == s.pcs[t].refs
    ensures Shared(Step(s, t), s.pcs[t].node)
  {
    var s', n := Step(s, t), s.pcs[t].node;
    assert ThreadLaw(s, t, roles);
    StepGetCasRefs(s, t, list, roles);
    SumMember(s'.pcs, t, RefWeight(n));
    var k := WordIs(s', n, list, roles);
    MaskedIs(k);
    MaskedIs(0);
    WordBefore(s.refs[n], s'.refs[n], k);
  }

  lemma WordBefore(r: nat, r': nat, k: nat)
    requires r' == Added(r, 1) && Masked(r) != 0 && 0 < k < SHOULD_BE_ON_FREELIST
    requires r' == k || r' == SHOULD_BE_ON_FREELIST + k
    ensures k >= 2
  {}

  lemma GetRankFalls(s: State, t: nat, list: seq<Node>, roles: seq<Role>)
    requires Inv(s, list, roles) && t < |s.pcs|
    requires s.pcs[t].GetLoadRefs? || s.pcs[t].GetCasRefs? || s.pcs[t].GetLoadHead?
    ensures Rank(Step(s, t), Step(s, t).pcs[t]) < Rank(s, s.pcs[t])
  {
    if s.head.To? {
      HeadIsListed(s, list, roles);
    }
    if s.pcs[t].GetCasRefs? && s.refs[s.pcs[t].node] == s.pcs[t].refs {
      TakingShares(s, t, list, roles);
    }
    hide Inv, IsList;
  }

  lemma OtherRankFalls(s: State, t: nat, list: seq<Node>, roles: seq<Role>)
    requires Inv(s, list, roles) && t < |s.pcs| && !s.pcs[t].Idle?
    requires !s.pcs[t].GetLoadRefs? && !s.pcs[t].GetCasRefs? && !s.pcs[t].GetLoadHead?
    ensures Rank(Step(s, t), Step(s, t).pcs[t]) < Rank(s, s.pcs[t])
  {
    hide IsList, ListLaw, OwnedLaw, NodesLaw, ThreadsLaw;
  }

  lemma {:induction false} Returns(s: State, t: nat, n: nat, list: seq<Node>, roles: seq<Role>)
    requires Inv(s, list, roles) && t < |s.pcs| && Rank(s, s.pcs[t]) <= n
    ensures t < |Alone(s, t, n).pcs| && Alone(s, t, n).pcs[t].Idle?
    decreases n
  {
    hide Inv, Rank, Step;
    RankIsZero(s, t);
    InvIsTyped(s, list, roles);
    if s.pcs[t].Idle? {
      IdleStays(s, t, n);
    } else {
      if s.pcs[t].GetLoadRefs? || s.pcs[t].GetCasRefs? || s.pcs[t].GetLoadHead? {
        GetRankFalls(s, t, list, roles);
      } else {
        OtherRankFalls(s, t, list, roles);
      }
      var list', roles' := StepKeepsInv(s, t, list, roles);
      AloneStep(s, t, n);
      Returns(Step(s, t), t, n - 1, list', roles');
    }
  }

  lemma RankIsZero(s: State, t: nat)
    requires t < |s.pcs|
    ensures Rank(s, s.pcs[t]) <= 31 && (Rank(s, s.pcs[t]) == 0 ==> s.pcs[t].Idle?)
  {}

  lemma InvIsTyped(s: State, list: seq<Node>, roles: seq<Role>)
    requires Inv(s, list, roles)
    ensures WellTyped(s)
  {}

  /** Whatever the other threads have left half done, a call that is left alone returns within 31 steps. */
  lemma AloneReturns(run: seq<State>, i: nat, t: nat)
    requires IsRun(run) && i < |run| && t < |run[i].pcs|
    ensures WellTyped(run[i]) && t < |Alone(run[i], t, 31).pcs| && Alone(run[i], t, 31).pcs[t].Idle?
  {
    hide Inv, Rank, Alone;
    var list, roles := RunKeepsInv(run, i);
    InvIsTyped(run[i], list, roles);
    RankIsZero(run[i], t);
    Returns(run[i], t, 31, list, roles);
  }
}
