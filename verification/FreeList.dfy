/** The lock-free free list: a stack of nodes whose reference word carries a
    31-bit count and a "should be on free list" bit.

    The model is a step machine.  `Step(s, t)` performs the next atomic operation of
    thread `t`; an arbitrary number of threads runs inside `add` and `try_get` at
    once, over an arbitrary and growing number of nodes.  */
module FreeList {
  import opened Counting

  type Node = nat
  datatype Ptr = Null | To(node: Node)

  const SHOULD_BE_ON_FREELIST: nat := 0x8000_0000
  const WORD: nat := 0x1_0000_0000

  function Masked(refs: nat): nat { refs % SHOULD_BE_ON_FREELIST }

  /** The top bit of a 32-bit word. */
  predicate Flag(refs: nat) { refs >= SHOULD_BE_ON_FREELIST }

  /** fetch_add (or fetch_sub, with a negative operand) on a 32-bit word. */
  function Added(refs: nat, k: int): (sum: nat)
    ensures 0 <= refs + k < WORD ==> sum == refs + k
  {
    (refs + k) % WORD
  }

  /** Where add_knowing_refcount_is_zero returns to. */
  datatype Caller = FromAdd | FromTryGet(head: Ptr)

  /** The next atomic operation of a thread, with its locals. */
  datatype Pc =
    | Idle
    | AddFlag(node: Node)
    | PushLoadHead(node: Node, caller: Caller)
    | PushStoreNext(node: Node, head: Ptr, caller: Caller)
    | PushStoreRefs(node: Node, head: Ptr, caller: Caller)
    | PushCasHead(node: Node, head: Ptr, caller: Caller)
    | PushGiveUp(node: Node, head: Ptr, caller: Caller)
    | GetLoadHead
    | GetLoadRefs(node: Node)
    | GetCasRefs(node: Node, refs: nat)
    | GetLoadNext(node: Node)
    | GetCasHead(node: Node, next: Ptr)
    | GetAssert(node: Node)
    | GetDropTwo(node: Node)
    | GetDropOne(node: Node, head: Ptr)

  /** `owned[t]` are the nodes that client code running on thread `t` holds. */
  datatype State = State(head: Ptr, refs: seq<nat>, next: seq<Ptr>, pcs: seq<Pc>, owned: seq<set<Node>>)

  predicate IsPtr(p: Ptr, count: nat) { p.To? ==> p.node < count }

  predicate IsCaller(c: Caller, count: nat) { c.FromTryGet? ==> IsPtr(c.head, count) }

  /** Every pointer among a thread's locals is null or one of the `count` nodes. */
  predicate IsPc(pc: Pc, count: nat) {
    match pc
    case Idle => true
    case AddFlag(n) => n < count
    case PushLoadHead(n, c) => n < count && IsCaller(c, count)
    case PushStoreNext(n, h, c) => n < count && IsPtr(h, count) && IsCaller(c, count)
    case PushStoreRefs(n, h, c) => n < count && IsPtr(h, count) && IsCaller(c, count)
    case PushCasHead(n, h, c) => n < count && IsPtr(h, count) && IsCaller(c, count)
    case PushGiveUp(n, h, c) => n < count && IsPtr(h, count) && IsCaller(c, count)
    case GetLoadHead => true
    case GetLoadRefs(n) => n < count
    case GetCasRefs(n, _) => n < count
    case GetLoadNext(n) => n < count
    case GetCasHead(n, nx) => n < count && IsPtr(nx, count)
    case GetAssert(n) => n < count
    case GetDropTwo(n) => n < count
    case GetDropOne(n, h) => n < count && IsPtr(h, count)
  }

  ghost predicate WellTyped(s: State) {
    && |s.next| == |s.refs|
    && |s.owned| == |s.pcs|
    && IsPtr(s.head, |s.refs|)
    && (forall n | 0 <= n < |s.next| :: IsPtr(s.next[n], |s.refs|))
    && (forall t | 0 <= t < |s.pcs| :: IsPc(s.pcs[t], |s.refs|))
    && (forall t, n | 0 <= t < |s.owned| && n in s.owned[t] :: n < |s.refs|)
  }

  /** The `while (head != nullptr)` test of try_get. */
  function Loop(head: Ptr): Pc {
    if head.Null? then Idle else GetLoadRefs(head.node)
  }

  function Return(c: Caller): Pc {
    match c
    case FromAdd => Idle
    case FromTryGet(h) => Loop(h)
  }

  /** One atomic operation of thread t, branch for branch. */
  function Step(s: State, t: nat): State
    requires t < |s.pcs| && WellTyped(s)
  {
    match s.pcs[t]
    case Idle => s
    case AddFlag(n) =>
      var was := s.refs[n];
      s.(refs := s.refs[n := Added(was, SHOULD_BE_ON_FREELIST)],
         pcs := s.pcs[t := if was == 0 then PushLoadHead(n, FromAdd) else Idle])
    case PushLoadHead(n, c) =>
      s.(pcs := s.pcs[t := PushStoreNext(n, s.head, c)])
    case PushStoreNext(n, h, c) =>
      s.(next := s.next[n := h], pcs := s.pcs[t := PushStoreRefs(n, h, c)])
    case PushStoreRefs(n, h, c) =>
      s.(refs := s.refs[n := 1], pcs := s.pcs[t := PushCasHead(n, h, c)])
    case PushCasHead(n, h, c) =>
      if s.head == h then s.(head := To(n), pcs := s.pcs[t := Return(c)])
      else s.(pcs := s.pcs[t := PushGiveUp(n, s.head, c)])
    case PushGiveUp(n, h, c) =>
      var was := s.refs[n];
      s.(refs := s.refs[n := Added(was, SHOULD_BE_ON_FREELIST - 1)],
         pcs := s.pcs[t := if was == 1 then PushStoreNext(n, h, c) else Return(c)])
    case GetLoadHead =>
      s.(pcs := s.pcs[t := Loop(s.head)])
    case GetLoadRefs(n) =>
      s.(pcs := s.pcs[t := if Masked(s.refs[n]) == 0 then GetLoadHead else GetCasRefs(n, s.refs[n])])
    case GetCasRefs(n, r) =>
      if s.refs[n] == r then s.(refs := s.refs[n := Added(r, 1)], pcs := s.pcs[t := GetLoadNext(n)])
      else s.(pcs := s.pcs[t := GetLoadHead])
    case GetLoadNext(n) =>
      s.(pcs := s.pcs[t := GetCasHead(n, s.next[n])])
    case GetCasHead(n, nx) =>
      if s.head == To(n) then s.(head := nx, pcs := s.pcs[t := GetAssert(n)])
      else s.(pcs := s.pcs[t := GetDropOne(n, s.head)])
    case GetAssert(n) =>
      s.(pcs := s.pcs[t := GetDropTwo(n)])
    case GetDropTwo(n) =>
      s.(refs := s.refs[n := Added(s.refs[n], -2)],
         pcs := s.pcs[t := Idle],
         owned := s.owned[t := s.owned[t] + {n}])
    case GetDropOne(n, h) =>
      var was := s.refs[n];
      s.(refs := s.refs[n := Added(was, -1)],
         pcs := s.pcs[t := if was == SHOULD_BE_ON_FREELIST + 1 then PushLoadHead(n, FromTryGet(h)) else Loop(h)])
  }

  /** What can happen next: a thread takes a step, or client code calls `add` on a node
      it holds, calls `try_get`, hands a node to other client code, or makes a node. */
  datatype Action = Run(t: nat) | CallAdd(t: nat, n: Node) | CallTryGet(t: nat) | HandOver(t: nat, n: Node, u: nat) | Create(t: nat)

  ghost predicate Enabled(s: State, a: Action)
    requires WellTyped(s)
  {
    && a.t < |s.pcs|
    && (a.Run? <==> !s.pcs[a.t].Idle?)
    && (a.CallAdd? || a.HandOver? ==> a.n in s.owned[a.t])
    && (a.HandOver? ==> a.u < |s.pcs|)
  }

  ghost function Apply(s: State, a: Action): State
    requires WellTyped(s) && Enabled(s, a)
  {
    match a
    case Run(t) => Step(s, t)
    case CallAdd(t, n) => s.(pcs := s.pcs[t := AddFlag(n)], owned := s.owned[t := s.owned[t] - {n}])
    case CallTryGet(t) => s.(pcs := s.pcs[t := GetLoadHead])
    case HandOver(t, n, u) =>
      var given := s.owned[t := s.owned[t] - {n}];
      s.(owned := given[u := given[u] + {n}])
    case Create(t) =>
      s.(refs := s.refs + [0], next := s.next + [Null], owned := s.owned[t := s.owned[t] + {|s.refs|}])
  }

  /** No node exists and no thread is in a call; fewer than 2^31 - 1 threads. */
  ghost predicate Init(s: State) {
    && s.head == Null && s.refs == [] && s.next == []
    && |s.owned| == |s.pcs| < SHOULD_BE_ON_FREELIST - 1
    && (forall t | 0 <= t < |s.pcs| :: s.pcs[t] == Idle && s.owned[t] == {})
  }

  ghost predicate Next(s: State, s': State) {
    WellTyped(s) && exists a :: Enabled(s, a) && s' == Apply(s, a)
  }

  /** A finite execution, step by step. */
  ghost predicate IsRun(run: seq<State>) {
    && run != [] && Init(run[0])
    && forall i | 0 <= i < |run| - 1 :: Next(run[i], run[i + 1])
  }

  // ---- Parties -----------------------------------------------------------------------

  /** The part a thread plays for one node. */
  datatype Part =
    | Bystander
    | Adder(node: Node)          // in add, flag not set yet
    | HiddenPusher(node: Node)   // obliged to push the node, count still zero
    | CountedPusher(node: Node)  // obliged to push the node, count raised again
    | Reader(node: Node)         // counted in the node's references, inside try_get
    | Taker(node: Node)          // has moved the head past the node, about to return it

  function PartOf(pc: Pc): Part {
    match pc
    case AddFlag(n) => Adder(n)
    case PushLoadHead(n, _) => HiddenPusher(n)
    case PushStoreNext(n, _, _) => HiddenPusher(n)
    case PushStoreRefs(n, _, _) => HiddenPusher(n)
    case PushCasHead(n, _, _) => CountedPusher(n)
    case PushGiveUp(n, _, _) => CountedPusher(n)
    case GetLoadNext(n) => Reader(n)
    case GetCasHead(n, _) => Reader(n)
    case GetDropOne(n, _) => Reader(n)
    case GetAssert(n) => Taker(n)
    case GetDropTwo(n) => Taker(n)
    case _ => Bystander
  }

  function RefWeight(n: Node): Pc -> nat {
    pc => if PartOf(pc) == Reader(n) || PartOf(pc) == Taker(n) then 1 else 0
  }

  /** How many threads are counted in n's references. */
  function Holders(s: State, n: Node): nat { Sum(s.pcs, RefWeight(n)) }

  // ---- The inductive invariant -------------------------------------------------------

  /** Where a node is, seen from outside: an auxiliary view that the invariant ties to the state. */
  datatype Role = Held(t: nat) | Entering(t: nat) | InPush(t: nat) | Deferred | Listed | Leaving(t: nat)

  function Following(list: seq<Node>, i: nat): Ptr { if i < |list| then To(list[i]) else Null }

  /** `list` is what a walk from freeListHead meets, each node once. */
  ghost predicate IsList(s: State, list: seq<Node>) {
    && s.head == Following(list, 0)
    && (forall i | 0 <= i < |list| :: list[i] < |s.next| && s.next[list[i]] == Following(list, i + 1))
    && (forall i, j | 0 <= i < j < |list| :: list[i] != list[j])
  }

  ghost predicate ListLaw(list: seq<Node>, roles: seq<Role>) {
    && (forall i | 0 <= i < |list| :: list[i] < |roles| && roles[list[i]] == Listed)
    && (forall n | 0 <= n < |roles| && roles[n] == Listed :: n in list)
  }

  /** The reference law: the word is the flag, the list's or publisher's share, and the holders. */
  ghost predicate RefLaw(s: State, role: Role, n: Node)
    requires n < |s.refs|
  {
    match role
    case Held(t) => s.refs[n] == Holders(s, n)
    case Entering(t) => s.refs[n] == Holders(s, n)
    case InPush(t) =>
      t < |s.pcs| &&
      (if PartOf(s.pcs[t]) == HiddenPusher(n) then s.refs[n] == SHOULD_BE_ON_FREELIST && Holders(s, n) == 0
       else s.refs[n] == 1 + Holders(s, n))
    case Deferred => s.refs[n] == SHOULD_BE_ON_FREELIST + Holders(s, n) && Holders(s, n) > 0
    case Listed => s.refs[n] == 1 + Holders(s, n)
    case Leaving(t) => s.refs[n] == 1 + Holders(s, n)
  }

  /** A role names a thread only if that thread plays the part. */
  ghost predicate RoleLaw(s: State, role: Role, n: Node) {
    match role
    case Held(t) => t < |s.owned| && n in s.owned[t]
    case Entering(t) => t < |s.pcs| && PartOf(s.pcs[t]) == Adder(n)
    case InPush(t) => t < |s.pcs| && (PartOf(s.pcs[t]) == HiddenPusher(n) || PartOf(s.pcs[t]) == CountedPusher(n))
    case Leaving(t) => t < |s.pcs| && PartOf(s.pcs[t]) == Taker(n)
    case _ => true
  }

  /** A thread plays a part only if the node's role says so; and what its locals still tell. */
  ghost predicate ThreadLaw(s: State, t: nat, roles: seq<Role>)
    requires t < |s.pcs|
  {
    && (match PartOf(s.pcs[t])
        case Adder(n) => n < |roles| && roles[n] == Entering(t)
        case HiddenPusher(n) => n < |roles| && roles[n] == InPush(t)
        case CountedPusher(n) => n < |roles| && roles[n] == InPush(t)
        case Taker(n) => n < |roles| && roles[n] == Leaving(t)
        case _ => true)
    && (match s.pcs[t]
        case PushStoreRefs(n, h, _) => n < |s.next| && s.next[n] == h
        case PushCasHead(n, h, _) => n < |s.next| && s.next[n] == h
        case GetCasRefs(_, r) => Masked(r) != 0
        case GetCasHead(n, nx) => n < |s.next| && s.next[n] == nx
        case _ => true)
  }

  ghost predicate OwnedLaw(s: State, roles: seq<Role>) {
    forall t, n | 0 <= t < |s.owned| && n in s.owned[t] :: n < |roles| && roles[n] == Held(t)
  }

  ghost predicate NodesLaw(s: State, roles: seq<Role>) {
    |roles| == |s.refs| && forall n | 0 <= n < |s.refs| :: RoleLaw(s, roles[n], n) && RefLaw(s, roles[n], n)
  }

  ghost predicate ThreadsLaw(s: State, roles: seq<Role>) {
    forall t | 0 <= t < |s.pcs| :: ThreadLaw(s, t, roles)
  }

  ghost predicate Inv(s: State, list: seq<Node>, roles: seq<Role>) {
    && WellTyped(s)
    && |s.pcs| < SHOULD_BE_ON_FREELIST - 1
    && IsList(s, list)
    && ListLaw(list, roles)
    && OwnedLaw(s, roles)
    && NodesLaw(s, roles)
    && ThreadsLaw(s, roles)
  }

  lemma HoldersBound(s: State, n: Node)
    ensures Holders(s, n) <= |s.pcs|
  {
    SumOfFlags(s.pcs, RefWeight(n));
  }

  lemma HoldersStep(s: State, t: nat, pc: Pc)
    requires t < |s.pcs|
    ensures forall n: Node :: Sum(s.pcs[t := pc], RefWeight(n)) == Holders(s, n) - RefWeight(n)(s.pcs[t]) + RefWeight(n)(pc)
  {
    forall n: Node ensures Sum(s.pcs[t := pc], RefWeight(n)) == Holders(s, n) - RefWeight(n)(s.pcs[t]) + RefWeight(n)(pc) {
      SumUpdate(s.pcs, t, pc, RefWeight(n));
    }
  }

  // ---- Every atomic operation keeps the invariant ------------------------------------

  /** The thread plays a part for no node but n. */
  predicate Only(pc: Pc, n: Node) { PartOf(pc).Bystander? || PartOf(pc).node == n }

  /** `s'` differs from `s` only in thread t's counter and in node n. */
  ghost predicate Local(s: State, s': State, t: nat, n: Node) {
    && WellTyped(s) && t < |s.pcs| && n < |s.refs|
    && WellTyped(s')
    && |s'.pcs| == |s.pcs| && s'.pcs == s.pcs[t := s'.pcs[t]]
    && Only(s.pcs[t], n) && Only(s'.pcs[t], n)
    && |s'.refs| == |s.refs| && s'.refs == s.refs[n := s'.refs[n]]
    && s'.next == s.next[n := s'.next[n]]
    && (forall u, m | 0 <= u < |s.owned| && m != n :: m in s'.owned[u] <==> m in s.owned[u])
  }

  /** No thread but t plays a part that is exclusive for n. */
  ghost predicate Alone(s: State, t: nat, n: Node) {
    forall u | 0 <= u < |s.pcs| && u != t :: PartOf(s.pcs[u]).Reader? || PartOf(s.pcs[u]).Bystander? || PartOf(s.pcs[u]).node != n
  }

  lemma LocalNodes(s: State, s': State, t: nat, n: Node, roles: seq<Role>, role: Role)
    requires Local(s, s', t, n) && NodesLaw(s, roles)
    requires RoleLaw(s', role, n) && RefLaw(s', role, n)
    ensures NodesLaw(s', roles[n := role])
  {
    HoldersStep(s, t, s'.pcs[t]);
    forall m | 0 <= m < |s.refs| && m != n ensures RoleLaw(s', roles[m], m) && RefLaw(s', roles[m], m) {
      assert RoleLaw(s, roles[m], m) && RefLaw(s, roles[m], m);
      assert Holders(s', m) == Holders(s, m);
    }
  }

  lemma LocalThreads(s: State, s': State, t: nat, n: Node, roles: seq<Role>, role: Role)
    requires Local(s, s', t, n) && |roles| == |s.refs| && ThreadsLaw(s, roles)
    requires ThreadLaw(s', t, roles[n := role])
    requires role == roles[n] || Alone(s, t, n)
    requires s'.next[n] == s.next[n] || (Alone(s, t, n) && Holders(s, n) == 0)
    ensures ThreadsLaw(s', roles[n := role])
  {
    SumZero(s.pcs, RefWeight(n));
    var roles' := roles[n := role];
    forall u | 0 <= u < |s.pcs| && u != t ensures ThreadLaw(s', u, roles') {
      assert ThreadLaw(s, u, roles);
      assert RefWeight(n)(s.pcs[u]) > 0 ==> s'.next[n] == s.next[n];
    }
  }

  lemma LocalOwned(s: State, s': State, t: nat, n: Node, roles: seq<Role>, role: Role)
    requires Local(s, s', t, n) && |roles| == |s.refs| && OwnedLaw(s, roles)
    requires forall u | 0 <= u < |s.owned| :: n in s'.owned[u] <==> role == Held(u)
    ensures OwnedLaw(s', roles[n := role])
  {}

  lemma LocalList(list: seq<Node>, list': seq<Node>, n: Node, roles: seq<Role>, role: Role)
    requires ListLaw(list, roles) && n < |roles|
    requires (forall m | m != n :: m in list' <==> m in list) && (n in list' <==> role == Listed)
    ensures ListLaw(list', roles[n := role])
  {
    forall i | 0 <= i < |list'| ensures list'[i] < |roles| && roles[n := role][list'[i]] == Listed {
      assert list'[i] in list';
    }
  }

  lemma LocalInv(s: State, s': State, t: nat, n: Node, list: seq<Node>, list': seq<Node>, roles: seq<Role>, role: Role)
    requires Inv(s, list, roles) && Local(s, s', t, n)
    requires IsList(s', list') && (forall m | m != n :: m in list' <==> m in list) && (n in list' <==> role == Listed)
    requires forall u | 0 <= u < |s.owned| :: n in s'.owned[u] <==> role == Held(u)
    requires RoleLaw(s', role, n) && RefLaw(s', role, n)
    requires ThreadLaw(s', t, roles[n := role])
    requires role == roles[n] || Alone(s, t, n)
    requires s'.next[n] == s.next[n] || (Alone(s, t, n) && Holders(s, n) == 0)
    ensures Inv(s', list', roles[n := role])
  {
    LocalNodes(s, s', t, n, roles, role);
    LocalThreads(s, s', t, n, roles, role);
    LocalOwned(s, s', t, n, roles, role);
    LocalList(list, list', n, roles, role);
  }

  lemma RoleAlone(s: State, t: nat, n: Node, roles: seq<Role>)
    requires ThreadsLaw(s, roles) && t < |s.pcs| && n < |roles|
    requires roles[n].Entering? || roles[n].InPush? || roles[n].Leaving? ==> roles[n].t == t
    ensures Alone(s, t, n)
  {
    forall u | 0 <= u < |s.pcs| && u != t ensures PartOf(s.pcs[u]).Reader? || PartOf(s.pcs[u]).Bystander? || PartOf(s.pcs[u]).node != n {
      assert ThreadLaw(s, u, roles);
    }
  }

  /** A step that changes nothing but the thread's own counter, and not its part. */
  lemma Quiet(s: State, t: nat, pc: Pc, list: seq<Node>, roles: seq<Role>)
    requires Inv(s, list, roles) && t < |s.pcs|
    requires PartOf(pc) == PartOf(s.pcs[t]) && IsPc(pc, |s.refs|)
    requires ThreadLaw(s.(pcs := s.pcs[t := pc]), t, roles)
    ensures Inv(s.(pcs := s.pcs[t := pc]), list, roles)
  {
    var s' := s.(pcs := s.pcs[t := pc]);
    HoldersStep(s, t, pc);
    forall u | 0 <= u < |s.pcs| ensures ThreadLaw(s', u, roles) {
      assert ThreadLaw(s, u, roles);
    }
    forall n | 0 <= n < |s.refs| ensures RoleLaw(s', roles[n], n) && RefLaw(s', roles[n], n) {
      assert RoleLaw(s, roles[n], n) && RefLaw(s, roles[n], n);
      assert Holders(s', n) == Holders(s, n);
    }
  }

  lemma StepIsTyped(s: State, t: nat)
    requires WellTyped(s) && t < |s.pcs|
    ensures WellTyped(Step(s, t))
  {
    var s' := Step(s, t);
    assert IsPc(s.pcs[t], |s.refs|);
    assert IsPc(s'.pcs[t], |s.refs|);
    assert s'.pcs == s.pcs[t := s'.pcs[t]];
  }

  /** Outside the head pointer, a step that plays a part touches that one node. */
  lemma StepIsLocal(s: State, t: nat)
    requires WellTyped(s) && t < |s.pcs|
    requires !PartOf(s.pcs[t]).Bystander? || s.pcs[t].GetCasRefs?
    ensures Local(s, Step(s, t), t, s.pcs[t].node)
  {
    StepIsTyped(s, t);
  }

  lemma StepHolders(s: State, t: nat)
    requires WellTyped(s) && t < |s.pcs|
    requires !PartOf(s.pcs[t]).Bystander? || s.pcs[t].GetCasRefs?
    ensures var n := s.pcs[t].node;
            Holders(Step(s, t), n) + RefWeight(n)(s.pcs[t]) == Holders(s, n) + RefWeight(n)(Step(s, t).pcs[t])
  {
    SumUpdate(s.pcs, t, Step(s, t).pcs[t], RefWeight(s.pcs[t].node));
  }

  lemma StepAddFlag(s: State, t: nat, list: seq<Node>, roles: seq<Role>) returns (roles': seq<Role>)
    requires Inv(s, list, roles) && t < |s.pcs| && s.pcs[t].AddFlag?
    ensures Inv(Step(s, t), list, roles')
  {
    var n := s.pcs[t].node;
    var role := if s.refs[n] == 0 then InPush(t) else Deferred;
    HoldersBound(s, n);
    StepIsLocal(s, t);
    StepHolders(s, t);
    assert ThreadLaw(s, t, roles) && RefLaw(s, roles[n], n);
    RoleAlone(s, t, n, roles);
    LocalInv(s, Step(s, t), t, n, list, list, roles, role);
    roles' := roles[n := role];
  }

  lemma StepPushStores(s: State, t: nat, list: seq<Node>, roles: seq<Role>)
    requires Inv(s, list, roles) && t < |s.pcs| && (s.pcs[t].PushStoreNext? || s.pcs[t].PushStoreRefs?)
    ensures Inv(Step(s, t), list, roles)
  {
    var n := s.pcs[t].node;
    StepIsLocal(s, t);
    StepHolders(s, t);
    assert ThreadLaw(s, t, roles) && RefLaw(s, roles[n], n);
    RoleAlone(s, t, n, roles);
    LocalInv(s, Step(s, t), t, n, list, list, roles, roles[n]);
    assert roles[n := roles[n]] == roles;
  }

  /** The successful push: the node goes to the front of the list. */
  lemma StepPushCas(s: State, t: nat, list: seq<Node>, roles: seq<Role>) returns (list': seq<Node>, roles': seq<Role>)
    requires Inv(s, list, roles) && t < |s.pcs| && s.pcs[t].PushCasHead? && s.head == s.pcs[t].head
    ensures Inv(Step(s, t), list', roles')
  {
    var n := s.pcs[t].node;
    StepIsLocal(s, t);
    StepHolders(s, t);
    assert ThreadLaw(s, t, roles) && RefLaw(s, roles[n], n);
    RoleAlone(s, t, n, roles);
    list' := [n] + list;
    ListPush(s, Step(s, t), list, n);
    LocalInv(s, Step(s, t), t, n, list, list', roles, Listed);
    roles' := roles[n := Listed];
  }

  lemma StepPushGiveUp(s: State, t: nat, list: seq<Node>, roles: seq<Role>) returns (roles': seq<Role>)
    requires Inv(s, list, roles) && t < |s.pcs| && s.pcs[t].PushGiveUp?
    ensures Inv(Step(s, t), list, roles')
  {
    var n := s.pcs[t].node;
    var role := if s.refs[n] == 1 then InPush(t) else Deferred;
    HoldersBound(s, n);
    StepIsLocal(s, t);
    StepHolders(s, t);
    assert ThreadLaw(s, t, roles) && RefLaw(s, roles[n], n);
    RoleAlone(s, t, n, roles);
    LocalInv(s, Step(s, t), t, n, list, list, roles, role);
    roles' := roles[n := role];
  }

  lemma StepGetCasRefs(s: State, t: nat, list: seq<Node>, roles: seq<Role>)
    requires Inv(s, list, roles) && t < |s.pcs| && s.pcs[t].GetCasRefs? && s.refs[s.pcs[t].node] == s.pcs[t].refs
    ensures Inv(Step(s, t), list, roles)
  {
    var n := s.pcs[t].node;
    HoldersBound(Step(s, t), n);
    StepIsLocal(s, t);
    StepHolders(s, t);
    assert ThreadLaw(s, t, roles) && RoleLaw(s, roles[n], n) && RefLaw(s, roles[n], n);
    LocalInv(s, Step(s, t), t, n, list, list, roles, roles[n]);
    assert roles[n := roles[n]] == roles;
  }

  lemma ListPop(s: State, s': State, list: seq<Node>)
    requires IsList(s, list) && list != []
    requires s'.next == s.next && list[0] < |s.next| && s'.head == s.next[list[0]]
    ensures IsList(s', list[1..])
    ensures forall m :: m in list[1..] <==> m in list && m != list[0]
  {}

  lemma ListPush(s: State, s': State, list: seq<Node>, n: Node)
    requires IsList(s, list) && n !in list
    requires s'.next == s.next && n < |s.next| && s.next[n] == s.head && s'.head == To(n)
    ensures IsList(s', [n] + list)
  {}

  /** The successful pop.  The reference that t holds has kept n's next pointer still since t read
      it, so the new head really is the rest of the list. */
  lemma StepGetCasHead(s: State, t: nat, list: seq<Node>, roles: seq<Role>)
    returns (list': seq<Node>, roles': seq<Role>)
    requires Inv(s, list, roles) && t < |s.pcs| && s.pcs[t].GetCasHead? && s.head == To(s.pcs[t].node)
    ensures Inv(Step(s, t), list', roles')
  {
    var n := s.pcs[t].node;
    var s' := Step(s, t);
    StepIsLocal(s, t);
    StepHolders(s, t);
    assert ThreadLaw(s, t, roles);
    assert n == list[0] && roles[n] == Listed && RefLaw(s, roles[n], n);
    list' := list[1..];
    ListPop(s, s', list);
    RoleAlone(s, t, n, roles);
    roles' := roles[n := Leaving(t)];
    assert ThreadLaw(s', t, roles') && RoleLaw(s', Leaving(t), n) && RefLaw(s', Leaving(t), n);
    LocalInv(s, s', t, n, list, list', roles, Leaving(t));
  }

  lemma StepGetDropTwo(s: State, t: nat, list: seq<Node>, roles: seq<Role>) returns (roles': seq<Role>)
    requires Inv(s, list, roles) && t < |s.pcs| && s.pcs[t].GetDropTwo?
    ensures Inv(Step(s, t), list, roles')
  {
    var n := s.pcs[t].node;
    HoldersBound(s, n);
    SumMember(s.pcs, t, RefWeight(n));
    StepIsLocal(s, t);
    StepHolders(s, t);
    assert ThreadLaw(s, t, roles) && RefLaw(s, roles[n], n);
    RoleAlone(s, t, n, roles);
    LocalInv(s, Step(s, t), t, n, list, list, roles, Held(t));
    roles' := roles[n := Held(t)];
  }

  /** Whoever drops the last reference of a node that should be on the list takes over the push. */
  lemma StepGetDropOne(s: State, t: nat, list: seq<Node>, roles: seq<Role>) returns (roles': seq<Role>)
    requires Inv(s, list, roles) && t < |s.pcs| && s.pcs[t].GetDropOne?
    ensures Inv(Step(s, t), list, roles')
  {
    var n := s.pcs[t].node;
    var s' := Step(s, t);
    var role := if s.refs[n] == SHOULD_BE_ON_FREELIST + 1 then InPush(t) else roles[n];
    HoldersBound(s, n);
    SumMember(s.pcs, t, RefWeight(n));
    StepIsLocal(s, t);
    StepHolders(s, t);
    assert ThreadLaw(s, t, roles) && RoleLaw(s, roles[n], n) && RefLaw(s, roles[n], n);
    assert roles[n].InPush? ==> roles[n].t != t;
    if role != roles[n] {
      assert roles[n] == Deferred;
      RoleAlone(s, t, n, roles);
    }
    roles' := roles[n := role];
    assert RoleLaw(s', role, n) && RefLaw(s', role, n);
    LocalInv(s, s', t, n, list, list, roles, role);
  }

  /** The operations that only load, or whose compare-exchange fails. */
  ghost predicate OnlyLooks(s: State, t: nat)
    requires t < |s.pcs| && WellTyped(s)
  {
    match s.pcs[t]
    case GetCasRefs(n, r) => IsPc(s.pcs[t], |s.refs|) && s.refs[n] != r
    case GetCasHead(n, _) => s.head != To(n)
    case PushCasHead(_, h, _) => s.head != h
    case _ => s.pcs[t].Idle? || s.pcs[t].PushLoadHead? || s.pcs[t].GetLoadHead? || s.pcs[t].GetLoadRefs? || s.pcs[t].GetLoadNext? || s.pcs[t].GetAssert?
  }

  lemma StepOnlyLooks(s: State, t: nat, list: seq<Node>, roles: seq<Role>)
    requires Inv(s, list, roles) && t < |s.pcs| && OnlyLooks(s, t)
    ensures Inv(Step(s, t), list, roles)
  {
    StepIsTyped(s, t);
    assert ThreadLaw(s, t, roles);
    var s' := Step(s, t);
    assert s' == s.(pcs := s.pcs[t := s'.pcs[t]]);
    Quiet(s, t, s'.pcs[t], list, roles);
  }

  lemma StepKeepsInv(s: State, t: nat, list: seq<Node>, roles: seq<Role>) returns (list': seq<Node>, roles': seq<Role>)
    requires Inv(s, list, roles) && t < |s.pcs|
    ensures Inv(Step(s, t), list', roles')
  {
    list', roles' := list, roles;
    if OnlyLooks(s, t) {
      StepOnlyLooks(s, t, list, roles);
    } else if s.pcs[t].AddFlag? {
      roles' := StepAddFlag(s, t, list, roles);
    } else if s.pcs[t].PushStoreNext? || s.pcs[t].PushStoreRefs? {
      StepPushStores(s, t, list, roles);
    } else if s.pcs[t].PushCasHead? {
      list', roles' := StepPushCas(s, t, list, roles);
    } else if s.pcs[t].PushGiveUp? {
      roles' := StepPushGiveUp(s, t, list, roles);
    } else if s.pcs[t].GetCasRefs? {
      StepGetCasRefs(s, t, list, roles);
    } else if s.pcs[t].GetCasHead? {
      list', roles' := StepGetCasHead(s, t, list, roles);
    } else if s.pcs[t].GetDropTwo? {
      roles' := StepGetDropTwo(s, t, list, roles);
    } else {
      roles' := StepGetDropOne(s, t, list, roles);
    }
  }

  /** The references held on a new node. */
  lemma NobodyHoldsNew(s: State)
    requires WellTyped(s)
    ensures Holders(s, |s.refs|) == 0
  {
    forall u | 0 <= u < |s.pcs| ensures RefWeight(|s.refs|)(s.pcs[u]) == 0 {
      assert IsPc(s.pcs[u], |s.refs|);
    }
    SumZero(s.pcs, RefWeight(|s.refs|));
  }

  lemma NewNode(s: State, t: nat, roles: seq<Role>)
    requires WellTyped(s) && Enabled(s, Create(t))
    ensures var s', n := Apply(s, Create(t)), |s.refs|; RoleLaw(s', Held(t), n) && RefLaw(s', Held(t), n)
  {
    NobodyHoldsNew(s);
  }

  lemma CreateIsTyped(s: State, t: nat)
    requires WellTyped(s) && Enabled(s, Create(t))
    ensures WellTyped(Apply(s, Create(t)))
  {
    var s' := Apply(s, Create(t));
    forall u | 0 <= u < |s'.pcs| ensures IsPc(s'.pcs[u], |s'.refs|) {
      assert IsPc(s.pcs[u], |s.refs|);
    }
  }

  lemma ThreadLawGrows(s: State, s': State, u: nat, roles: seq<Role>, role: Role)
    requires u < |s.pcs| && s'.pcs == s.pcs && s'.next == s.next + [Null] && ThreadLaw(s, u, roles)
    ensures ThreadLaw(s', u, roles + [role])
  {}

  lemma CreateKeepsThreads(s: State, t: nat, list: seq<Node>, roles: seq<Role>)
    requires Inv(s, list, roles) && Enabled(s, Create(t))
    ensures var s' := Apply(s, Create(t)); WellTyped(s') && ThreadsLaw(s', roles + [Held(t)])
  {
    CreateIsTyped(s, t);
    var s', roles' := Apply(s, Create(t)), roles + [Held(t)];
    hide IsList, ListLaw, OwnedLaw, NodesLaw, WellTyped, ThreadLaw;
    forall u | 0 <= u < |s'.pcs| ensures ThreadLaw(s', u, roles') {
      ThreadLawGrows(s, s', u, roles, Held(t));
    }
  }

  lemma CreateKeepsNodes(s: State, t: nat, list: seq<Node>, roles: seq<Role>)
    requires Inv(s, list, roles) && Enabled(s, Create(t))
    ensures NodesLaw(Apply(s, Create(t)), roles + [Held(t)])
  {
    var s', roles' := Apply(s, Create(t)), roles + [Held(t)];
    NewNode(s, t, roles);
    hide IsList, ListLaw, OwnedLaw, ThreadLaw;
    forall m | 0 <= m < |s.refs| ensures RoleLaw(s', roles'[m], m) && RefLaw(s', roles'[m], m) {
      assert RoleLaw(s, roles[m], m) && RefLaw(s, roles[m], m);
    }
  }

  lemma CreateKeepsInv(s: State, t: nat, list: seq<Node>, roles: seq<Role>)
    requires Inv(s, list, roles) && Enabled(s, Create(t))
    ensures Inv(Apply(s, Create(t)), list, roles + [Held(t)])
  {
    CreateKeepsThreads(s, t, list, roles);
    CreateKeepsNodes(s, t, list, roles);
    hide ThreadsLaw, NodesLaw;
  }

  /** Client code gives up a node it holds: to `add`, or to other client code. */
  lemma GiveUpKeepsInv(s: State, a: Action, list: seq<Node>, roles: seq<Role>) returns (roles': seq<Role>)
    requires Inv(s, list, roles) && Enabled(s, a) && (a.CallAdd? || a.HandOver?)
    ensures Inv(Apply(s, a), list, roles')
  {
    var s', t, n := Apply(s, a), a.t, a.n;
    var role := if a.CallAdd? then Entering(t) else Held(a.u);
    assert roles[n] == Held(t) && RefLaw(s, roles[n], n) && ThreadLaw(s, t, roles);
    RoleAlone(s, t, n, roles);
    HoldersStep(s, t, s'.pcs[t]);
    assert s.pcs[t := s'.pcs[t]] == s'.pcs;
    roles' := roles[n := role];
    assert RoleLaw(s', role, n) && RefLaw(s', role, n) && ThreadLaw(s', t, roles');
    LocalInv(s, s', t, n, list, list, roles, role);
  }

  lemma ApplyKeepsInv(s: State, a: Action, list: seq<Node>, roles: seq<Role>)
    returns (list': seq<Node>, roles': seq<Role>)
    requires Inv(s, list, roles) && Enabled(s, a)
    ensures Inv(Apply(s, a), list', roles')
  {
    list', roles' := list, roles;
    if a.Run? {
      list', roles' := StepKeepsInv(s, a.t, list, roles);
    } else if a.CallTryGet? {
      Quiet(s, a.t, GetLoadHead, list, roles);
    } else if a.Create? {
      CreateKeepsInv(s, a.t, list, roles);
      roles' := roles + [Held(a.t)];
    } else {
      roles' := GiveUpKeepsInv(s, a, list, roles);
    }
  }

  lemma NextKeepsInv(s: State, s': State, list: seq<Node>, roles: seq<Role>)
    returns (list': seq<Node>, roles': seq<Role>)
    requires Inv(s, list, roles) && Next(s, s')
    ensures Inv(s', list', roles')
  {
    var a :| Enabled(s, a) && s' == Apply(s, a);
    list', roles' := ApplyKeepsInv(s, a, list, roles);
  }

  lemma {:induction false} RunKeepsInv(run: seq<State>, i: nat) returns (list: seq<Node>, roles: seq<Role>)
    requires IsRun(run) && i < |run|
    ensures Inv(run[i], list, roles)
  {
    if i == 0 {
      list, roles := [], [];
    } else {
      list, roles := RunKeepsInv(run, i - 1);
      list, roles := NextKeepsInv(run[i - 1], run[i], list, roles);
    }
  }

  // ---- What the free list promises ---------------------------------------------------

  /** Thread t has the node to itself: in its client code, on the way in, or on the way out. */
  predicate Possesses(s: State, t: nat, n: Node) {
    t < |s.pcs| && t < |s.owned| && (n in s.owned[t] || PartOf(s.pcs[t]) == Adder(n) || PartOf(s.pcs[t]) == Taker(n))
  }

  /** Thread t is the one running add_knowing_refcount_is_zero on the node. */
  predicate Pushes(s: State, t: nat, n: Node) {
    t < |s.pcs| && (PartOf(s.pcs[t]) == HiddenPusher(n) || PartOf(s.pcs[t]) == CountedPusher(n))
  }

  predicate Party(s: State, t: nat, n: Node) { Possesses(s, t, n) || Pushes(s, t, n) }

  /** The flag is set and a thread still counted in the node's references will find itself the last one. */
  ghost predicate Awaits(s: State, n: Node)
    requires n < |s.refs|
  {
    Flag(s.refs[n]) && exists t | 0 <= t < |s.pcs| :: PartOf(s.pcs[t]) == Reader(n)
  }

  /** Each node is in exactly one place: once on the list, in the hands of exactly one thread, being
      pushed by exactly one thread, or waiting for the last of its readers. */
  ghost predicate OnePlace(s: State, n: Node, list: seq<Node>)
    requires n < |s.refs|
  {
    if n in list then !Flag(s.refs[n]) && forall t :: !Party(s, t, n)
    else if exists t :: Party(s, t, n) then
      && (forall t, u | Party(s, t, n) && Party(s, u, n) :: t == u)
      && (forall t :: !(Possesses(s, t, n) && Pushes(s, t, n)))
    else Awaits(s, n)
  }

  lemma PartyIsRole(s: State, t: nat, n: Node, list: seq<Node>, roles: seq<Role>)
    requires Inv(s, list, roles) && n < |s.refs|
    ensures Possesses(s, t, n) <==> roles[n] == Held(t) || roles[n] == Entering(t) || roles[n] == Leaving(t)
    ensures Pushes(s, t, n) <==> roles[n] == InPush(t)
  {
    assert t < |s.pcs| ==> ThreadLaw(s, t, roles);
    assert RoleLaw(s, roles[n], n);
  }

  lemma DeferredAwaits(s: State, n: Node)
    requires n < |s.refs| && RefLaw(s, Deferred, n) && |s.pcs| < SHOULD_BE_ON_FREELIST - 1
    requires forall t | 0 <= t < |s.pcs| :: PartOf(s.pcs[t]) != Taker(n)
    ensures Awaits(s, n)
  {
    HoldersBound(s, n);
    SumZero(s.pcs, RefWeight(n));
    var t :| 0 <= t < |s.pcs| && RefWeight(n)(s.pcs[t]) != 0;
    assert PartOf(s.pcs[t]) == Reader(n);
  }

  lemma ListedPlace(s: State, n: Node, list: seq<Node>, roles: seq<Role>)
    requires Inv(s, list, roles) && n < |s.refs| && n in list
    ensures OnePlace(s, n, list)
  {
    HoldersBound(s, n);
    assert roles[n] == Listed && RefLaw(s, roles[n], n);
    forall t: nat ensures !Party(s, t, n) {
      PartyIsRole(s, t, n, list, roles);
    }
  }

  lemma DeferredPlace(s: State, n: Node, list: seq<Node>, roles: seq<Role>)
    requires Inv(s, list, roles) && n < |s.refs| && roles[n].Deferred?
    ensures OnePlace(s, n, list)
  {
    forall t: nat ensures !Party(s, t, n) {
      PartyIsRole(s, t, n, list, roles);
    }
    assert RefLaw(s, roles[n], n);
    assert forall t | 0 <= t < |s.pcs| :: PartOf(s.pcs[t]) == Taker(n) ==> Party(s, t, n);
    DeferredAwaits(s, n);
  }

  lemma InvOnePlace(s: State, n: Node, list: seq<Node>, roles: seq<Role>)
    requires Inv(s, list, roles) && n < |s.refs|
    ensures OnePlace(s, n, list)
  {
    if n in list {
      ListedPlace(s, n, list, roles);
    } else if roles[n].Deferred? {
      DeferredPlace(s, n, list, roles);
    } else {
      assert !roles[n].Listed?;
      forall t: nat
        ensures Party(s, t, n) <==> roles[n].t == t
        ensures !(Possesses(s, t, n) && Pushes(s, t, n))
      {
        PartyIsRole(s, t, n, list, roles);
      }
      assert Party(s, roles[n].t, n);
    }
  }

  /** Ownership, in every state that any number of threads can reach: the list is acyclic and every
      node is in exactly one place, so no two threads are ever handed the same node. */
  lemma Ownership(run: seq<State>, i: nat)
    requires IsRun(run) && i < |run|
    ensures exists list :: IsList(run[i], list) && forall n | 0 <= n < |run[i].refs| :: OnePlace(run[i], n, list)
  {
    var list, roles := RunKeepsInv(run, i);
    forall n | 0 <= n < |run[i].refs| ensures OnePlace(run[i], n, list) {
      InvOnePlace(run[i], n, list, roles);
    }
  }

  /** The reference law: on the list a node counts the list's own reference plus its holders and
      nothing else. */
  lemma ListedReferenceLaw(run: seq<State>, i: nat)
    requires IsRun(run) && i < |run|
    ensures forall list | IsList(run[i], list) :: forall n | n in list ::
              n < |run[i].refs| && run[i].refs[n] == 1 + Holders(run[i], n)
  {
    var list', roles := RunKeepsInv(run, i);
    forall list, n | IsList(run[i], list) && n in list
      ensures n < |run[i].refs| && run[i].refs[n] == 1 + Holders(run[i], n)
    {
      ListIsUnique(run[i], list, list', 0);
      assert roles[n] == Listed && RefLaw(run[i], roles[n], n);
    }
  }

  /** A node just taken off the list still counts the list's reference and the taker's own, and the
      assert in try_get, that its flag is clear, always holds.  In client hands it counts its holders. */
  lemma OwnedReferenceLaw(run: seq<State>, i: nat, t: nat, n: Node)
    requires IsRun(run) && i < |run| && t < |run[i].pcs| && n < |run[i].refs| && Possesses(run[i], t, n)
    ensures !Flag(run[i].refs[n])
    ensures run[i].refs[n] == Holders(run[i], n) + (if PartOf(run[i].pcs[t]) == Taker(n) then 1 else 0)
  {
    var list, roles := RunKeepsInv(run, i);
    PossessedWord(run[i], t, n, list, roles);
  }

  /** A node being pushed bears nothing but the flag, or, once it has been published, the publisher's
      reference and its readers. */
  lemma PushedReferenceLaw(run: seq<State>, i: nat, t: nat, n: Node)
    requires IsRun(run) && i < |run| && t < |run[i].pcs| && n < |run[i].refs| && Pushes(run[i], t, n)
    ensures PartOf(run[i].pcs[t]) == HiddenPusher(n) ==> run[i].refs[n] == SHOULD_BE_ON_FREELIST && Holders(run[i], n) == 0
    ensures PartOf(run[i].pcs[t]) == CountedPusher(n) ==> run[i].refs[n] == 1 + Holders(run[i], n)
  {
    var list, roles := RunKeepsInv(run, i);
    PartyIsRole(run[i], t, n, list, roles);
    assert RefLaw(run[i], roles[n], n);
  }

  /** A node that is neither on the list nor in any thread's hands bears the flag and its readers, of whom there
      is at least one to put it back. */
  lemma AwaitedReferenceLaw(run: seq<State>, i: nat)
    requires IsRun(run) && i < |run|
    ensures forall list, n | IsList(run[i], list) && 0 <= n < |run[i].refs| && n !in list && (forall t: nat :: !Party(run[i], t, n)) ::
              run[i].refs[n] == SHOULD_BE_ON_FREELIST + Holders(run[i], n) && Holders(run[i], n) > 0
  {
    hide Inv, IsRun, Party, Holders;
    var s := run[i];
    var list', roles := RunKeepsInv(run, i);
    forall list, n | IsList(s, list) && 0 <= n < |s.refs| && n !in list && (forall t: nat :: !Party(s, t, n))
      ensures s.refs[n] == SHOULD_BE_ON_FREELIST + Holders(s, n) && Holders(s, n) > 0
    {
      ListIsUnique(s, list, list', 0);
      AwaitedWord(s, n, list, roles);
    }
  }

  lemma AwaitedWord(s: State, n: Node, list: seq<Node>, roles: seq<Role>)
    requires Inv(s, list, roles) && n < |s.refs| && n !in list && forall t: nat :: !Party(s, t, n)
    ensures s.refs[n] == SHOULD_BE_ON_FREELIST + Holders(s, n) && Holders(s, n) > 0
  {
    hide Possesses, Pushes, Holders, RoleLaw, ThreadLaw, IsList, WellTyped;
    assert !roles[n].Listed?;
    if !roles[n].Deferred? {
      assert !Party(s, roles[n].t, n);
      PartyIsRole(s, roles[n].t, n, list, roles);
    } else {
      assert RefLaw(s, roles[n], n);
    }
  }

  lemma PossessedWord(s: State, t: nat, n: Node, list: seq<Node>, roles: seq<Role>)
    requires Inv(s, list, roles) && t < |s.pcs| && n < |s.refs| && Possesses(s, t, n)
    ensures !Flag(s.refs[n])
    ensures s.refs[n] == Holders(s, n) + (if PartOf(s.pcs[t]) == Taker(n) then 1 else 0)
  {
    PartyIsRole(s, t, n, list, roles);
    HoldersBound(s, n);
    assert RefLaw(s, roles[n], n);
    assert ThreadLaw(s, t, roles) && RoleLaw(s, roles[n], n);
  }

  lemma {:induction false} ListIsUnique(s: State, a: seq<Node>, b: seq<Node>, i: nat)
    requires IsList(s, a) && IsList(s, b)
    requires i <= |a| && i <= |b| && a[..i] == b[..i]
    ensures a == b
    decreases |a| - i
  {
    assert Following(a, i) == Following(b, i) by {
      if i > 0 {
        assert a[i - 1] == a[..i][i - 1] == b[..i][i - 1] == b[i - 1];
      }
    }
    if i < |a| {
      assert a[..i + 1] == a[..i] + [a[i]] && b[..i + 1] == b[..i] + [b[i]];
      ListIsUnique(s, a, b, i + 1);
    } else {
      assert a == a[..i] && b == b[..i];
    }
  }

  lemma ReadersKeepNext(s: State, s': State, n: Node, list: seq<Node>, roles: seq<Role>)
    requires Inv(s, list, roles) && Next(s, s') && n < |s.refs| && Holders(s, n) > 0
    ensures n < |s'.next| && s'.next[n] == s.next[n]
  {
    var a :| Enabled(s, a) && s' == Apply(s, a);
    if a.Run? && s.pcs[a.t].PushStoreNext? {
      var m := s.pcs[a.t].node;
      assert ThreadLaw(s, a.t, roles) && RefLaw(s, roles[m], m);
    }
  }

  /** No ABA: nothing writes a node's next pointer while a thread in try_get is counted in its
      references, so the value that thread read is still the node's successor at its CAS. */
  lemma NextIsStill(run: seq<State>, i: nat, t: nat, n: Node)
    requires IsRun(run) && i + 1 < |run| && n < |run[i].refs| && t < |run[i].pcs|
    requires PartOf(run[i].pcs[t]) == Reader(n)
    ensures n < |run[i].next| && n < |run[i + 1].next| && run[i + 1].next[n] == run[i].next[n]
    ensures run[i].pcs[t].GetCasHead? ==> run[i].pcs[t].next == run[i].next[n]
  {
    var list, roles := RunKeepsInv(run, i);
    assert ThreadLaw(run[i], t, roles);
    SumMember(run[i].pcs, t, RefWeight(n));
    ReadersKeepNext(run[i], run[i + 1], n, list, roles);
  }

  /** With no call in progress nothing is lost: every node is on the list, counting 1, or held by
      exactly one thread, counting 0. */
  lemma Quiescent(run: seq<State>, i: nat, list: seq<Node>, n: Node)
    requires IsRun(run) && i < |run| && IsList(run[i], list) && n < |run[i].refs|
    requires forall t | 0 <= t < |run[i].pcs| :: run[i].pcs[t].Idle?
    ensures n in list ==> run[i].refs[n] == 1
    ensures n !in list ==> run[i].refs[n] == 0 && exists t :: 0 <= t < |run[i].owned| && n in run[i].owned[t]
    ensures OnePlace(run[i], n, list)
  {
    var s := run[i];
    var list', roles := RunKeepsInv(run, i);
    ListIsUnique(s, list, list', 0);
    InvOnePlace(s, n, list, roles);
    SumZero(s.pcs, RefWeight(n));
    assert RoleLaw(s, roles[n], n) && RefLaw(s, roles[n], n);
  }
}
