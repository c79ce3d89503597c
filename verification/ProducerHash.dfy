/** The hash from thread ids to implicit producers: a chain of open-addressed tables that all
    share one counter, so that one table can fill up while a thread is still allocating the next.

    Threads run get_or_add_implicit_producer, one atomic operation at a time.  Thread-exit
    recycling is compiled out: a key, once placed, stays. */
module ProducerHash {
  import opened Counting
  import opened Modular
  import opened Options

  datatype Slot = Vacant | Entry(key: nat, value: Option<nat>)

  datatype Pc =
    | Idle
    | LoadMain
    | Probe(main: nat, table: nat, k: nat)                      // next: load the key of the k-th slot probed
    | Readd(main: nat, k: nat, value: nat)                      // found in an older table: put it in the main one
    | ReaddValue(main: nat, index: nat, value: nat)
    | Count(main: nat)
    | TryLock(main: nat, newCount: int)
    | Reload(newCount: int)                                     // holds the resize lock
    | Resize(main: nat, newCount: int)                          // holds the resize lock
    | FailResize(newCount: int)                                 // holds the resize lock
    | ClearAndFail                                              // holds the resize lock
    | Clear(main: nat, newCount: int)                           // holds the resize lock
    | CreateProducer(main: nat, newCount: int)
    | FailCreate(newCount: int)
    | Insert(main: nat, newCount: int, k: nat, value: nat)
    | InsertValue(main: nat, newCount: int, index: nat, value: nat)
    | WaitForTable(newCount: int)
    | Done(result: Option<nat>)

  /** `tables` is the chain, oldest first; the main table is the last.  `hashes[t]` is the hashed id of
      thread t, and `created` counts the producers made so far, which names the next one. */
  datatype State = State(tables: seq<seq<Slot>>, count: int, resizing: bool, created: nat, hashes: seq<nat>, pcs: seq<Pc>)

  /** Three quarters of the capacity, as the code computes it. */
  function Room(capacity: nat): nat { capacity / 2 + capacity / 4 }

  /** The capacity loop: double until the count is below half. */
  function GrowTo(capacity: nat, newCount: int): (c: nat)
    requires capacity > 0
    ensures c >= capacity && newCount < c / 2
    decreases newCount + 1 - capacity / 2
  {
    if newCount >= capacity / 2 then GrowTo(2 * capacity, newCount) else capacity
  }

  /** The k-th slot that a probe for hash h meets. */
  function Index(h: nat, k: nat, capacity: nat): nat
    requires capacity > 0
  {
    (h + k) % capacity
  }

  /** After a lookup has failed in `table`: the next older one, or insertion. */
  function NotIn(main: nat, table: nat): Pc { if table > 0 then Probe(main, table - 1, 0) else Count(main) }

  predicate WellTypedPc(s: State, pc: Pc) {
    match pc
    case Probe(m, j, _) => m < |s.tables| && j <= m
    case Readd(m, _, _) => m < |s.tables|
    case ReaddValue(m, i, _) => m < |s.tables| && i < |s.tables[m]|
    case Count(m) => m < |s.tables|
    case TryLock(m, _) => m < |s.tables|
    case Resize(m, _) => m < |s.tables|
    case Clear(m, _) => m < |s.tables|
    case CreateProducer(m, _) => m < |s.tables|
    case Insert(m, _, _, _) => m < |s.tables|
    case InsertValue(m, _, i, _) => m < |s.tables| && i < |s.tables[m]|
    case _ => true
  }

  ghost predicate WellTyped(s: State) {
    && s.tables != [] && |s.hashes| == |s.pcs|
    && (forall m | 0 <= m < |s.tables| :: |s.tables[m]| > 0)
    && (forall t | 0 <= t < |s.pcs| :: WellTypedPc(s, s.pcs[t]))
  }

  /** The three-quarters test, made on whatever table the thread has as its main one. */
  function TestRoom(s: State, m: nat, newCount: int): Pc
    requires m < |s.tables|
  {
    if newCount < Room(|s.tables[m]|) then CreateProducer(m, newCount) else WaitForTable(newCount)
  }

  function Put(tables: seq<seq<Slot>>, m: nat, i: nat, e: Slot): seq<seq<Slot>>
    requires m < |tables| && i < |tables[m]|
  {
    tables[m := tables[m][i := e]]
  }

  /** One atomic operation of thread t; `luck` says whether an allocation succeeds. */
  function Step(s: State, t: nat, luck: bool): State
    requires t < |s.pcs| && WellTyped(s)
  {
    var h := s.hashes[t];
    var pc := s.pcs[t];
    match pc
    case Idle => s
    case LoadMain => s.(pcs := s.pcs[t := Probe(|s.tables| - 1, |s.tables| - 1, 0)])
    case Probe(main, j, k) =>
      var slot := s.tables[j][Index(h, k, |s.tables[j]|)];
      s.(pcs := s.pcs[t :=
        if slot.Vacant? then NotIn(main, j)
        else if slot.key != t then Probe(main, j, k + 1)
        else if slot.value.None? then Done(None)
        else if j == main then Done(slot.value)
        else Readd(main, 0, slot.value.value)])
    case Readd(main, k, value) =>
      var i := Index(h, k, |s.tables[main]|);
      if s.tables[main][i].Vacant? then
        s.(tables := Put(s.tables, main, i, Entry(t, None)), pcs := s.pcs[t := ReaddValue(main, i, value)])
      else
        s.(pcs := s.pcs[t := Readd(main, k + 1, value)])
    case ReaddValue(main, i, value) =>
      s.(tables := Put(s.tables, main, i, Entry(t, Some(value))), pcs := s.pcs[t := Done(Some(value))])
    case Count(main) =>
      s.(count := s.count + 1, pcs := s.pcs[t := TryLock(main, s.count + 1)])
    case TryLock(main, newCount) =>
      if newCount >= |s.tables[main]| / 2 && !s.resizing then
        s.(resizing := true, pcs := s.pcs[t := Reload(newCount)])
      else
        s.(pcs := s.pcs[t := TestRoom(s, main, newCount)])
    case Reload(newCount) =>
      s.(pcs := s.pcs[t := Resize(|s.tables| - 1, newCount)])
    case Resize(main, newCount) =>
      if newCount < |s.tables[main]| / 2 then
        s.(pcs := s.pcs[t := Clear(main, newCount)])
      else if luck then
        var table := seq(GrowTo(2 * |s.tables[main]|, newCount), _ => Vacant);
        s.(tables := s.tables + [table], pcs := s.pcs[t := Clear(|s.tables|, newCount)])
      else
        s.(pcs := s.pcs[t := FailResize(newCount)])
    case FailResize(newCount) =>
      s.(count := s.count - 1, pcs := s.pcs[t := ClearAndFail])
    case ClearAndFail =>
      s.(resizing := false, pcs := s.pcs[t := Done(None)])
    case Clear(main, newCount) =>
      s.(resizing := false, pcs := s.pcs[t := TestRoom(s, main, newCount)])
    case CreateProducer(main, newCount) =>
      if luck then s.(created := s.created + 1, pcs := s.pcs[t := Insert(main, newCount, 0, s.created)])
      else s.(pcs := s.pcs[t := FailCreate(newCount)])
    case FailCreate(newCount) =>
      s.(count := s.count - 1, pcs := s.pcs[t := Done(None)])
    case Insert(main, newCount, k, value) =>
      var i := Index(h, k, |s.tables[main]|);
      if s.tables[main][i].Vacant? then
        s.(tables := Put(s.tables, main, i, Entry(t, None)), pcs := s.pcs[t := InsertValue(main, newCount, i, value)])
      else
        s.(pcs := s.pcs[t := Insert(main, newCount, k + 1, value)])
    case InsertValue(main, newCount, i, value) =>
      s.(tables := Put(s.tables, main, i, Entry(t, Some(value))), pcs := s.pcs[t := Done(Some(value))])
    case WaitForTable(newCount) =>
      s.(pcs := s.pcs[t := TryLock(|s.tables| - 1, newCount)])
    case Done(_) => s.(pcs := s.pcs[t := Idle])
  }

  datatype Action = Run(t: nat, luck: bool) | Call(t: nat)

  ghost predicate Enabled(s: State, a: Action) {
    WellTyped(s) && a.t < |s.pcs| && (a.Call? ==> s.pcs[a.t].Idle?)
  }

  ghost function Apply(s: State, a: Action): State
    requires Enabled(s, a)
  {
    match a
    case Run(t, luck) => Step(s, t, luck)
    case Call(t) => s.(pcs := s.pcs[t := LoadMain])
  }

  /** One table of vacant slots, of any positive capacity; any hash function. */
  ghost predicate Init(s: State) {
    && |s.tables| == 1 && |s.tables[0]| > 0 && (forall i | 0 <= i < |s.tables[0]| :: s.tables[0][i].Vacant?)
    && s.count == 0 && !s.resizing && s.created == 0 && |s.hashes| == |s.pcs|
    && forall t | 0 <= t < |s.pcs| :: s.pcs[t].Idle?
  }

  ghost predicate IsRun(run: seq<State>, actions: seq<Action>) {
    && |run| == |actions| + 1 && Init(run[0])
    && forall i | 0 <= i < |actions| :: Enabled(run[i], actions[i]) && run[i + 1] == Apply(run[i], actions[i])
  }

  // ---- The laws ----------------------------------------------------------------------

  /** Auxiliary knowledge: `tickets[t]` is the count that thread t drew and still stands for (in flight
      or inserted), `owner[t]` the producer placed in the hash for t, `maker[p]` the thread that made p. */
  datatype Aux = Aux(tickets: seq<Option<int>>, owner: seq<Option<nat>>, maker: seq<nat>)

  function TicketWeight(): Option<int> -> nat { (x: Option<int>) => if x.Some? then 1 else 0 }
  function BelowWeight(limit: int): Option<int> -> nat { (x: Option<int>) => if x.Some? && x.value < limit then 1 else 0 }

  ghost predicate Holds(slots: seq<Slot>, t: nat) { exists i | 0 <= i < |slots| :: slots[i].Entry? && slots[i].key == t }

  /** The first k slots of t's probe are taken by others. */
  ghost predicate Passed(slots: seq<Slot>, h: nat, t: nat, k: nat) {
    |slots| > 0 && forall j | 0 <= j < k :: var e := slots[Index(h, j, |slots|)]; e.Entry? && e.key != t
  }

  /** Slot i is reached from hash h over taken slots. */
  ghost predicate Reached(slots: seq<Slot>, h: nat, i: nat) {
    |slots| > 0 && exists k | 0 <= k < |slots| :: Index(h, k, |slots|) == i && forall j | 0 <= j < k :: slots[Index(h, j, |slots|)].Entry?
  }

  ghost predicate SlotLaw(slots: seq<Slot>, i: nat, hashes: seq<nat>, tickets: seq<Option<int>>)
    requires i < |slots| && |hashes| == |tickets|
  {
    slots[i].Entry? ==>
      var t := slots[i].key;
      && t < |tickets| && tickets[t].Some? && tickets[t].value < Room(|slots|)
      && Reached(slots, hashes[t], i)
  }

  ghost predicate TableLaw(slots: seq<Slot>, hashes: seq<nat>, tickets: seq<Option<int>>)
    requires |hashes| == |tickets|
  {
    && (forall i | 0 <= i < |slots| :: SlotLaw(slots, i, hashes, tickets))
    && (forall i, j | 0 <= i < j < |slots| && slots[i].Entry? && slots[j].Entry? :: slots[i].key != slots[j].key)
  }

  /** A key without its value yet is one whose thread is about to store the value. */
  ghost predicate ValueLaw(s: State, m: nat, aux: Aux)
    requires m < |s.tables|
  {
    forall i | 0 <= i < |s.tables[m]| && s.tables[m][i].Entry? ::
      var e := s.tables[m][i];
      e.key < |aux.owner| && e.key < |s.pcs| &&
      match e.value
      case Some(p) => aux.owner[e.key] == Some(p)
      case None => var pc := s.pcs[e.key]; (pc.ReaddValue? || pc.InsertValue?) && pc.main == m && pc.index == i
  }

  ghost predicate Nowhere(s: State, t: nat) { forall m | 0 <= m < |s.tables| :: !Holds(s.tables[m], t) }

  /** Between calls: a thread stands for a ticket exactly when it is in the hash. */
  ghost predicate Settled(s: State, t: nat, aux: Aux)
    requires t < |aux.tickets| && t < |aux.owner|
  {
    if aux.owner[t].Some? then aux.tickets[t].Some? && exists m | 0 <= m < |s.tables| :: Holds(s.tables[m], t)
    else aux.tickets[t].None? && Nowhere(s, t)
  }

  /** From drawing a ticket until the key is placed or the ticket handed back. */
  predicate Flies(pc: Pc) {
    || pc.TryLock? || pc.Reload? || pc.Resize? || pc.FailResize? || pc.Clear?
    || pc.CreateProducer? || pc.FailCreate? || pc.WaitForTable? || pc.Insert?
  }

  ghost predicate InFlight(s: State, t: nat, newCount: int, aux: Aux)
    requires t < |aux.tickets| && t < |aux.owner|
  {
    aux.tickets[t] == Some(newCount) && aux.owner[t].None? && Nowhere(s, t)
  }

  /** What the thread's locals say. */
  ghost predicate LocalLaw(s: State, t: nat, aux: Aux)
    requires WellTyped(s) && t < |s.pcs| == |aux.tickets| == |aux.owner|
  {
    match s.pcs[t]
    case Done(r) => aux.owner[t] == r
    case Probe(m, j, k) => Passed(s.tables[j], s.hashes[t], t, k) && forall i | j < i < |s.tables| :: !Holds(s.tables[i], t)
    case Readd(m, k, v) =>
      && aux.owner[t] == Some(v) && Passed(s.tables[m], s.hashes[t], t, k) && !Holds(s.tables[m], t)
      && aux.tickets[t].Some? && aux.tickets[t].value < Room(|s.tables[m]|)
    case ReaddValue(m, i, v) => aux.owner[t] == Some(v) && s.tables[m][i] == Entry(t, None)
    case Count(m) => aux.owner[t].None?
    case ClearAndFail => aux.owner[t].None?
    case Resize(m, n) => m == |s.tables| - 1
    case CreateProducer(m, n) => n < Room(|s.tables[m]|)
    case Insert(m, n, k, v) =>
      && n < Room(|s.tables[m]|) && Passed(s.tables[m], s.hashes[t], t, k)
      && v < |aux.maker| && aux.maker[v] == t
    case InsertValue(m, n, i, v) => aux.owner[t] == Some(v) && s.tables[m][i] == Entry(t, None)
    case _ => true
  }

  ghost predicate StageLaw(s: State, t: nat, aux: Aux)
    requires t < |s.pcs| == |aux.tickets| == |aux.owner|
  {
    && (aux.owner[t].Some? ==> aux.owner[t].value < |aux.maker| && aux.maker[aux.owner[t].value] == t)
    && if Flies(s.pcs[t]) then InFlight(s, t, s.pcs[t].newCount, aux) else Settled(s, t, aux)
  }

  ghost predicate ThreadLaw(s: State, t: nat, aux: Aux)
    requires WellTyped(s) && t < |s.pcs| == |aux.tickets| == |aux.owner|
  {
    StageLaw(s, t, aux) && LocalLaw(s, t, aux)
  }

  /** The load bound: for every L, fewer than L threads stand for a count below L. */
  ghost predicate LoadLaw(tickets: seq<Option<int>>) {
    forall limit: int | limit > 0 :: Sum(tickets, BelowWeight(limit)) < limit
  }

  predicate HasLock(pc: Pc) { pc.Reload? || pc.Resize? || pc.FailResize? || pc.ClearAndFail? || pc.Clear? }
  function LockWeight(): Pc -> nat { (pc: Pc) => if HasLock(pc) then 1 else 0 }

  ghost predicate CapacityLaw(tables: seq<seq<Slot>>) {
    forall i, j | 0 <= i < j < |tables| :: |tables[i]| <= |tables[j]|
  }

  ghost predicate CountLaw(s: State, aux: Aux) {
    && |aux.tickets| == |aux.owner| == |s.pcs| == |s.hashes|
    && |aux.maker| == s.created
    && s.count == Sum(aux.tickets, TicketWeight())
    && LoadLaw(aux.tickets)
    && Sum(s.pcs, LockWeight()) == (if s.resizing then 1 else 0)
    && CapacityLaw(s.tables)
  }

  ghost predicate TablesLaw(s: State, aux: Aux)
    requires |s.hashes| == |aux.tickets|
  {
    forall m | 0 <= m < |s.tables| :: TableLaw(s.tables[m], s.hashes, aux.tickets) && ValueLaw(s, m, aux)
  }

  ghost predicate ThreadsLaw(s: State, aux: Aux)
    requires WellTyped(s) && |s.pcs| == |aux.tickets| == |aux.owner|
  {
    forall t | 0 <= t < |s.pcs| :: ThreadLaw(s, t, aux)
  }

  ghost predicate Inv(s: State, aux: Aux) {
    WellTyped(s) && CountLaw(s, aux) && TablesLaw(s, aux) && ThreadsLaw(s, aux)
  }

  // ---- Drawing and returning tickets -------------------------------------------------

  lemma {:induction false} BelowIsSome(tickets: seq<Option<int>>, limit: int)
    ensures Sum(tickets, BelowWeight(limit)) <= Sum(tickets, TicketWeight())
  {
    if tickets != [] {
      BelowIsSome(tickets[1..], limit);
    }
  }

  /** A new ticket is one more than the number of tickets out, so whatever limit it is below was not
      reached before. */
  lemma DrawKeepsLoad(tickets: seq<Option<int>>, t: nat)
    requires t < |tickets| && tickets[t].None? && LoadLaw(tickets)
    ensures LoadLaw(tickets[t := Some(Sum(tickets, TicketWeight()) + 1)])
    ensures Sum(tickets[t := Some(Sum(tickets, TicketWeight()) + 1)], TicketWeight()) == Sum(tickets, TicketWeight()) + 1
  {
    var n := Sum(tickets, TicketWeight()) + 1;
    SumUpdate(tickets, t, Some(n), TicketWeight());
    forall limit: int | limit > 0 ensures Sum(tickets[t := Some(n)], BelowWeight(limit)) < limit {
      SumUpdate(tickets, t, Some(n), BelowWeight(limit));
      BelowIsSome(tickets, limit);
    }
  }

  lemma ReturnKeepsLoad(tickets: seq<Option<int>>, t: nat)
    requires t < |tickets| && tickets[t].Some? && LoadLaw(tickets)
    ensures LoadLaw(tickets[t := None])
    ensures Sum(tickets[t := None], TicketWeight()) == Sum(tickets, TicketWeight()) - 1
  {
    SumUpdate(tickets, t, None, TicketWeight());
    forall limit: int | limit > 0 ensures Sum(tickets[t := None], BelowWeight(limit)) < limit {
      SumUpdate(tickets, t, None, BelowWeight(limit));
    }
  }

  // ---- Placing a key -----------------------------------------------------------------

  lemma PlaceKeepsTable(slots: seq<Slot>, hashes: seq<nat>, tickets: seq<Option<int>>, t: nat, k: nat)
    requires |hashes| == |tickets| && t < |tickets| && TableLaw(slots, hashes, tickets)
    requires tickets[t].Some? && tickets[t].value < Room(|slots|) && !Holds(slots, t)
    requires Passed(slots, hashes[t], t, k) && k < |slots| && slots[Index(hashes[t], k, |slots|)].Vacant?
    ensures TableLaw(slots[Index(hashes[t], k, |slots|) := Entry(t, None)], hashes, tickets)
  {
    var i0 := Index(hashes[t], k, |slots|);
    var slots' := slots[i0 := Entry(t, None)];
    forall i | 0 <= i < |slots| ensures SlotLaw(slots', i, hashes, tickets) {
      assert SlotLaw(slots, i, hashes, tickets);
      if i != i0 && slots[i].Entry? {
        var h := hashes[slots[i].key];
        var k' :| 0 <= k' < |slots| && Index(h, k', |slots|) == i && forall j | 0 <= j < k' :: slots[Index(h, j, |slots|)].Entry?;
        assert forall j | 0 <= j < k' :: slots'[Index(h, j, |slots|)].Entry?;
      }
    }
  }

  /** An entry that a probe reaches comes before the first vacant slot it meets. */
  lemma ReachedIsPassed(slots: seq<Slot>, h: nat, t: nat, i: nat, k: nat)
    requires i < |slots| && Reached(slots, h, i) && slots[i].Entry?
    requires Passed(slots, h, t, k) && slots[Index(h, k, |slots|)].Vacant?
    ensures slots[i].key != t
  {
    var k' :| 0 <= k' < |slots| && Index(h, k', |slots|) == i && forall j | 0 <= j < k' :: slots[Index(h, j, |slots|)].Entry?;
    assert k' < k;
  }

  /** A lookup that meets a vacant slot may conclude that the key is not in the table. */
  lemma VacantMeansAbsent(slots: seq<Slot>, hashes: seq<nat>, tickets: seq<Option<int>>, t: nat, k: nat)
    requires |hashes| == |tickets| && t < |tickets| && TableLaw(slots, hashes, tickets)
    requires Passed(slots, hashes[t], t, k) && slots[Index(hashes[t], k, |slots|)].Vacant?
    ensures !Holds(slots, t)
  {
    forall i | 0 <= i < |slots| ensures !(slots[i].Entry? && slots[i].key == t) {
      assert SlotLaw(slots, i, hashes, tickets);
      if slots[i].Entry? && slots[i].key == t {
        ReachedIsPassed(slots, hashes[t], t, i, k);
      }
    }
  }

  // ---- Probe loops end ---------------------------------------------------------------

  lemma {:induction false} DistinctBelow(tickets: seq<Option<int>>, keys: seq<nat>, limit: int)
    requires forall i | 0 <= i < |keys| :: keys[i] < |tickets| && tickets[keys[i]].Some? && tickets[keys[i]].value < limit
    requires forall i, j | 0 <= i < j < |keys| :: keys[i] != keys[j]
    ensures |keys| <= Sum(tickets, BelowWeight(limit))
    decreases |keys|
  {
    if keys != [] {
      var n := |keys| - 1;
      var tickets' := tickets[keys[n] := None];
      SumUpdate(tickets, keys[n], None, BelowWeight(limit));
      DistinctBelow(tickets', keys[..n], limit);
    }
  }

  lemma IndexIsInjective(h: nat, i: nat, j: nat, c: nat)
    requires i < j < c
    ensures Index(h, i, c) != Index(h, j, c)
  {
    DistinctRemainders(h, i, j, c);
  }

  /** The slots a probe has passed hold distinct keys whose tickets are below three quarters of the
      capacity, and there are fewer such tickets than that: a probe never goes round. */
  lemma ProbeIsShort(slots: seq<Slot>, hashes: seq<nat>, tickets: seq<Option<int>>, t: nat, h: nat, k: nat)
    requires |hashes| == |tickets| && TableLaw(slots, hashes, tickets) && LoadLaw(tickets)
    requires Passed(slots, h, t, k)
    ensures k < |slots| && (k == 0 || k < Room(|slots|))
  {
    var c := |slots|;
    var n := if k < c then k else c;
    var keys := seq(n, j requires 0 <= j < n => slots[Index(h, j, c)].key);
    forall j | 0 <= j < n ensures keys[j] < |tickets| && tickets[keys[j]].Some? && tickets[keys[j]].value < Room(c) {
      assert SlotLaw(slots, Index(h, j, c), hashes, tickets);
    }
    forall i, j | 0 <= i < j < n ensures keys[i] != keys[j] {
      IndexIsInjective(h, i, j, c);
    }
    DistinctBelow(tickets, keys, Room(c));
    if Room(c) > 0 {
      assert Sum(tickets, BelowWeight(Room(c))) < Room(c);
    } else {
      SumMonotone(tickets, tickets, BelowWeight(0));
      ZeroBelowOne(tickets);
    }
  }

  lemma {:induction false} ZeroBelowOne(tickets: seq<Option<int>>)
    ensures Sum(tickets, BelowWeight(0)) <= Sum(tickets, BelowWeight(1))
  {
    if tickets != [] {
      ZeroBelowOne(tickets[1..]);
    }
  }

  // ---- Every atomic operation keeps the invariant ------------------------------------

  lemma StepKeepsShape(s: State, t: nat, luck: bool)
    requires WellTyped(s) && t < |s.pcs|
    ensures var s' := Step(s, t, luck);
            && |s'.pcs| == |s.pcs| && s'.pcs == s.pcs[t := s'.pcs[t]] && s'.hashes == s.hashes
            && |s'.tables| >= |s.tables|
            && (forall m | 0 <= m < |s.tables| :: |s'.tables[m]| == |s.tables[m]|)
            && (forall m | |s.tables| <= m < |s'.tables| :: |s'.tables[m]| > 0)
  {
    assert WellTypedPc(s, s.pcs[t]);
  }

  predicate Looks(pc: Pc) { pc.LoadMain? || pc.Probe? || pc.Readd? || pc.ReaddValue? || pc.Count? || pc.TryLock? }

  lemma LookIsTyped(s: State, t: nat, luck: bool)
    requires WellTyped(s) && t < |s.pcs| && Looks(s.pcs[t])
    ensures |Step(s, t, luck).pcs| == |s.pcs| && WellTypedPc(Step(s, t, luck), Step(s, t, luck).pcs[t])
  {
    assert WellTypedPc(s, s.pcs[t]);
  }

  lemma GrowIsTyped(s: State, t: nat, luck: bool)
    requires WellTyped(s) && t < |s.pcs| && !Looks(s.pcs[t])
    ensures |Step(s, t, luck).pcs| == |s.pcs| && WellTypedPc(Step(s, t, luck), Step(s, t, luck).pcs[t])
  {
    assert WellTypedPc(s, s.pcs[t]);
  }

  lemma StepIsTyped(s: State, t: nat, luck: bool)
    requires WellTyped(s) && t < |s.pcs|
    ensures WellTyped(Step(s, t, luck))
  {
    var s' := Step(s, t, luck);
    StepKeepsShape(s, t, luck);
    if Looks(s.pcs[t]) {
      LookIsTyped(s, t, luck);
    } else {
      GrowIsTyped(s, t, luck);
    }
    hide Step;
    forall u | 0 <= u < |s'.pcs| ensures WellTypedPc(s', s'.pcs[u]) {
      if u != t {
        assert WellTypedPc(s, s.pcs[u]);
      }
    }
  }

  predicate StoresValue(pc: Pc) { pc.ReaddValue? || pc.InsertValue? }

  /** Values stay in order when no thread starts or ends storing one. */
  lemma KeepValues(s: State, s': State, t: nat, m: nat, aux: Aux, aux': Aux)
    requires t < |s.pcs| == |s'.pcs| && s'.pcs == s.pcs[t := s'.pcs[t]] && !StoresValue(s.pcs[t])
    requires m < |s.tables| && m < |s'.tables| && s'.tables[m] == s.tables[m]
    requires aux'.owner == aux.owner && ValueLaw(s, m, aux)
    ensures ValueLaw(s', m, aux')
  {}

  /** Only the thread's counter, and perhaps the resize flag, change. */
  lemma MoveKeepsInv(s: State, t: nat, pc: Pc, resizing: bool, aux: Aux)
    requires Inv(s, aux) && t < |s.pcs| && !StoresValue(s.pcs[t]) && !StoresValue(pc) && WellTypedPc(s, pc)
    requires var s' := s.(pcs := s.pcs[t := pc], resizing := resizing); WellTyped(s') && ThreadLaw(s', t, aux)
    requires (if resizing then 1 else 0) - (if s.resizing then 1 else 0) == LockWeight()(pc) - LockWeight()(s.pcs[t])
    ensures Inv(s.(pcs := s.pcs[t := pc], resizing := resizing), aux)
  {
    var s' := s.(pcs := s.pcs[t := pc], resizing := resizing);
    SumUpdate(s.pcs, t, pc, LockWeight());
    forall u | 0 <= u < |s.pcs| ensures ThreadLaw(s', u, aux) {
      assert ThreadLaw(s, u, aux);
    }
    forall m | 0 <= m < |s.tables| ensures ValueLaw(s', m, aux) {
      KeepValues(s, s', t, m, aux, aux);
    }
  }

  /** A lookup that ends in one table goes on to the next older one, or concludes that there is no entry. */
  lemma MissKeepsInv(s: State, t: nat, aux: Aux)
    requires Inv(s, aux) && t < |s.pcs| && s.pcs[t].Probe?
    requires var Probe(main, j, k) := s.pcs[t]; s.tables[j][Index(s.hashes[t], k, |s.tables[j]|)].Vacant?
    ensures Inv(Step(s, t, false), aux)
  {
    var Probe(main, j, k) := s.pcs[t];
    var s' := Step(s, t, false);
    StepIsTyped(s, t, false);
    assert ThreadLaw(s, t, aux);
    VacantMeansAbsent(s.tables[j], s.hashes, aux.tickets, t, k);
    assert StageLaw(s', t, aux);
    MoveKeepsInv(s, t, s'.pcs[t], s.resizing, aux);
  }

  /** What a thread finds under its own key: its own producer, and a ticket that fits every newer table. */
  lemma FoundOwn(s: State, t: nat, j: nat, i: nat, aux: Aux)
    requires Inv(s, aux) && t < |s.pcs| && !StoresValue(s.pcs[t]) && j < |s.tables| && i < |s.tables[j]|
    requires s.tables[j][i].Entry? && s.tables[j][i].key == t
    ensures s.tables[j][i].value.Some? && aux.owner[t] == s.tables[j][i].value
    ensures aux.tickets[t].Some? && forall m | j <= m < |s.tables| :: aux.tickets[t].value < Room(|s.tables[m]|)
  {
    assert ValueLaw(s, j, aux) && SlotLaw(s.tables[j], i, s.hashes, aux.tickets);
    forall m | j <= m < |s.tables| ensures |s.tables[j]| <= |s.tables[m]| {
      assert CapacityLaw(s.tables);
    }
  }

  /** The slot probed holds another thread's key. */
  lemma PassKeepsInv(s: State, t: nat, aux: Aux)
    requires Inv(s, aux) && t < |s.pcs| && s.pcs[t].Probe?
    requires var Probe(main, j, k) := s.pcs[t];
             var e := s.tables[j][Index(s.hashes[t], k, |s.tables[j]|)]; e.Entry? && e.key != t
    ensures Inv(Step(s, t, false), aux)
  {
    hide TableLaw, LoadLaw, ValueLaw;
    var Probe(main, j, k) := s.pcs[t];
    StepIsTyped(s, t, false);
    assert ThreadLaw(s, t, aux);
    assert StageLaw(Step(s, t, false), t, aux);
    MoveKeepsInv(s, t, Probe(main, j, k + 1), s.resizing, aux);
  }

  lemma HitKeepsInv(s: State, t: nat, aux: Aux)
    requires Inv(s, aux) && t < |s.pcs| && s.pcs[t].Probe?
    requires var Probe(main, j, k) := s.pcs[t];
             var e := s.tables[j][Index(s.hashes[t], k, |s.tables[j]|)]; e.Entry? && e.key == t
    ensures Inv(Step(s, t, false), aux)
  {
    var Probe(main, j, k) := s.pcs[t];
    var i := Index(s.hashes[t], k, |s.tables[j]|);
    StepIsTyped(s, t, false);
    assert ThreadLaw(s, t, aux);
    FoundOwn(s, t, j, i, aux);
    var p := s.tables[j][i].value.value;
    var pc := if j == main then Done(Some(p)) else Readd(main, 0, p);
    assert Step(s, t, false) == s.(pcs := s.pcs[t := pc]);
    assert StageLaw(Step(s, t, false), t, aux);
    MoveKeepsInv(s, t, pc, s.resizing, aux);
  }

  lemma AtMostOneLock(s: State, t: nat, u: nat)
    requires t < u < |s.pcs| && Sum(s.pcs, LockWeight()) <= 1
    ensures !(HasLock(s.pcs[t]) && HasLock(s.pcs[u]))
  {
    SumPair(s.pcs, t, u, LockWeight());
  }

  /** Moves in flight: the lock, the reloads of the main table, the tests of the count. */
  lemma FlightKeepsInv(s: State, t: nat, luck: bool, aux: Aux)
    requires Inv(s, aux) && t < |s.pcs|
    requires
      || s.pcs[t].TryLock? || s.pcs[t].Reload? || s.pcs[t].Clear? || s.pcs[t].WaitForTable?
      || (s.pcs[t].Resize? && (s.pcs[t].newCount < |s.tables[s.pcs[t].main]| / 2 || !luck))
      || (s.pcs[t].CreateProducer? && !luck)
    ensures Inv(Step(s, t, luck), aux)
  {
    var s' := Step(s, t, luck);
    StepIsTyped(s, t, luck);
    assert ThreadLaw(s, t, aux);
    SumMember(s.pcs, t, LockWeight());
    assert Flies(s'.pcs[t]) && s'.pcs[t].newCount == s.pcs[t].newCount;
    assert StageLaw(s', t, aux) && LocalLaw(s', t, aux);
    MoveKeepsInv(s, t, s'.pcs[t], s'.resizing, aux);
  }

  lemma RestKeepsInv(s: State, t: nat, luck: bool, aux: Aux)
    requires Inv(s, aux) && t < |s.pcs| && (s.pcs[t].Idle? || s.pcs[t].LoadMain? || s.pcs[t].ClearAndFail? || s.pcs[t].Done?)
    ensures Inv(Step(s, t, luck), aux)
  {
    hide TableLaw, ValueLaw, CapacityLaw;
    var s' := Step(s, t, luck);
    StepIsTyped(s, t, luck);
    assert ThreadLaw(s, t, aux);
    SumMember(s.pcs, t, LockWeight());
    assert StageLaw(s', t, aux) && LocalLaw(s', t, aux);
    assert s.pcs[t := s'.pcs[t]] == s'.pcs;
    MoveKeepsInv(s, t, s'.pcs[t], s'.resizing, aux);
  }

  /** A probe for a vacant slot, in Readd and Insert, that meets a taken one. */
  lemma NextSlotKeepsInv(s: State, t: nat, aux: Aux)
    requires Inv(s, aux) && t < |s.pcs| && (s.pcs[t].Readd? || s.pcs[t].Insert?)
    requires var m := s.pcs[t].main; s.tables[m][Index(s.hashes[t], s.pcs[t].k, |s.tables[m]|)].Entry?
    ensures Inv(Step(s, t, false), aux)
  {
    hide TableLaw, LoadLaw, ValueLaw;
    var s', m := Step(s, t, false), s.pcs[t].main;
    StepIsTyped(s, t, false);
    assert ThreadLaw(s, t, aux);
    assert !Holds(s.tables[m], t);
    assert ThreadLaw(s', t, aux);
    MoveKeepsInv(s, t, s'.pcs[t], s.resizing, aux);
  }

  /** A thread draws a ticket, or hands its ticket back; it has no key in any table. */
  lemma TicketKeepsInv(s: State, t: nat, count: int, pc: Pc, ticket: Option<int>, aux: Aux)
    requires Inv(s, aux) && t < |s.pcs| && Nowhere(s, t) && aux.owner[t].None?
    requires !StoresValue(s.pcs[t]) && !StoresValue(pc) && LockWeight()(pc) == LockWeight()(s.pcs[t])
    requires var s' := s.(count := count, pcs := s.pcs[t := pc]);
             WellTypedPc(s, pc) && WellTyped(s') && ThreadLaw(s', t, aux.(tickets := aux.tickets[t := ticket]))
    requires LoadLaw(aux.tickets[t := ticket]) && count == Sum(aux.tickets[t := ticket], TicketWeight())
    ensures Inv(s.(count := count, pcs := s.pcs[t := pc]), aux.(tickets := aux.tickets[t := ticket]))
  {
    var s', aux' := s.(count := count, pcs := s.pcs[t := pc]), aux.(tickets := aux.tickets[t := ticket]);
    SumUpdate(s.pcs, t, pc, LockWeight());
    forall u | 0 <= u < |s.pcs| ensures ThreadLaw(s', u, aux') {
      assert ThreadLaw(s, u, aux);
    }
    forall m | 0 <= m < |s.tables| ensures TableLaw(s.tables[m], s.hashes, aux'.tickets) && ValueLaw(s', m, aux') {
      assert ValueLaw(s, m, aux) && !Holds(s.tables[m], t);
      forall i | 0 <= i < |s.tables[m]| ensures SlotLaw(s.tables[m], i, s.hashes, aux'.tickets) {
        assert SlotLaw(s.tables[m], i, s.hashes, aux.tickets);
      }
    }
  }

  lemma DrawOrReturnKeepsInv(s: State, t: nat, aux: Aux) returns (aux': Aux)
    requires Inv(s, aux) && t < |s.pcs| && (s.pcs[t].Count? || s.pcs[t].FailResize? || s.pcs[t].FailCreate?)
    ensures Inv(Step(s, t, false), aux')
  {
    var s' := Step(s, t, false);
    StepIsTyped(s, t, false);
    assert ThreadLaw(s, t, aux);
    var ticket := if s.pcs[t].Count? then Some(s.count + 1) else None;
    if s.pcs[t].Count? {
      DrawKeepsLoad(aux.tickets, t);
    } else {
      ReturnKeepsLoad(aux.tickets, t);
    }
    aux' := aux.(tickets := aux.tickets[t := ticket]);
    assert Nowhere(s', t);
    TicketKeepsInv(s, t, s'.count, s'.pcs[t], ticket, aux);
  }

  /** A longer chain of tables that ends in an empty one tells each thread what it knew. */
  lemma LongerChain(s: State, s': State, t: nat, u: nat, aux: Aux)
    requires Inv(s, aux) && t < |s.pcs| && u < |s.pcs| && u != t && HasLock(s.pcs[t])
    requires WellTyped(s') && |s'.tables| == |s.tables| + 1 && s'.tables[..|s.tables|] == s.tables
    requires forall i | 0 <= i < |s'.tables[|s.tables|]| :: s'.tables[|s.tables|][i].Vacant?
    requires s'.hashes == s.hashes && |s'.pcs| == |s.pcs| && s'.pcs[u] == s.pcs[u]
    ensures ThreadLaw(s', u, aux)
  {
    assert ThreadLaw(s, u, aux);
    forall m | 0 <= m < |s.tables| ensures s'.tables[m] == s.tables[m] {
      assert s'.tables[..|s.tables|][m] == s'.tables[m];
    }
    assert !Holds(s'.tables[|s.tables|], u);
    AtMostOneLock(s, if t < u then t else u, if t < u then u else t);
    assert StageLaw(s', u, aux) by {
      if exists m | 0 <= m < |s.tables| :: Holds(s.tables[m], u) {
        var m :| 0 <= m < |s.tables| && Holds(s.tables[m], u);
        assert Holds(s'.tables[m], u);
      }
    }
  }

  /** A bigger table goes to the end of the chain. */
  lemma GrowKeepsInv(s: State, t: nat, aux: Aux)
    requires Inv(s, aux) && t < |s.pcs| && s.pcs[t].Resize? && s.pcs[t].newCount >= |s.tables[s.pcs[t].main]| / 2
    ensures Inv(Step(s, t, true), aux)
  {
    var s' := Step(s, t, true);
    var n := |s.tables|;
    StepIsTyped(s, t, true);
    assert ThreadLaw(s, t, aux);
    SumUpdate(s.pcs, t, s'.pcs[t], LockWeight());
    assert !Holds(s'.tables[n], t);
    forall u | 0 <= u < |s.pcs| ensures ThreadLaw(s', u, aux) {
      if u != t {
        LongerChain(s, s', t, u, aux);
      }
    }
    forall m | 0 <= m < |s'.tables| ensures TableLaw(s'.tables[m], s'.hashes, aux.tickets) && ValueLaw(s', m, aux) {
      if m < n {
        KeepValues(s, s', t, m, aux, aux);
      }
    }
    assert CapacityLaw(s'.tables) by {
      forall i, j | 0 <= i < j < |s'.tables| ensures |s'.tables[i]| <= |s'.tables[j]| {
        assert i < n - 1 ==> |s.tables[i]| <= |s.tables[n - 1]|;
      }
    }
  }

  lemma CreateKeepsInv(s: State, t: nat, aux: Aux)
    requires Inv(s, aux) && t < |s.pcs| && s.pcs[t].CreateProducer?
    ensures Inv(Step(s, t, true), aux.(maker := aux.maker + [t]))
  {
    var s', aux' := Step(s, t, true), aux.(maker := aux.maker + [t]);
    SumUpdate(s.pcs, t, s'.pcs[t], LockWeight());
    forall u | 0 <= u < |s.pcs| ensures ThreadLaw(s', u, aux') {
      assert ThreadLaw(s, u, aux);
      assert StageLaw(s', u, aux');
    }
    forall m | 0 <= m < |s.tables| ensures ValueLaw(s', m, aux') {
      KeepValues(s, s', t, m, aux, aux');
    }
  }

  /** Writing one slot of one table, vacant or already t's, keeps what other threads know. */
  lemma OtherThreads(s: State, s': State, t: nat, u: nat, m: nat, i: nat, e: Slot, aux: Aux, aux': Aux)
    requires Inv(s, aux) && t < |s.pcs| && u < |s.pcs| && u != t
    requires m < |s.tables| && i < |s.tables[m]| && e.Entry? && e.key == t
    requires s.tables[m][i].Vacant? || s.tables[m][i].key == t
    requires WellTyped(s') && s'.tables == Put(s.tables, m, i, e) && s'.hashes == s.hashes
    requires |s'.pcs| == |s.pcs| && s'.pcs[u] == s.pcs[u]
    requires aux' == aux.(owner := aux'.owner) && |aux'.owner| == |aux.owner| && aux'.owner[u] == aux.owner[u]
    ensures ThreadLaw(s', u, aux')
  {
    hide TableLaw, LoadLaw, ValueLaw;
    assert ThreadLaw(s, u, aux);
    forall n | 0 <= n < |s.tables| ensures Holds(s'.tables[n], u) <==> Holds(s.tables[n], u) {
      if Holds(s.tables[n], u) {
        var x :| 0 <= x < |s.tables[n]| && s.tables[n][x].Entry? && s.tables[n][x].key == u;
        assert s'.tables[n][x] == s.tables[n][x];
      }
    }
  }

  lemma PlaceKeepsValues(s: State, s': State, t: nat, m: nat, i: nat, n: nat, aux: Aux, aux': Aux)
    requires Inv(s, aux) && t < |s.pcs| && !StoresValue(s.pcs[t]) && m < |s.tables| && i < |s.tables[m]|
    requires n < |s.tables|
    requires s.tables[m][i].Vacant?
    requires |s'.pcs| == |s.pcs|
    requires s' == s.(tables := Put(s.tables, m, i, Entry(t, None)), pcs := s.pcs[t := s'.pcs[t]])
    requires StoresValue(s'.pcs[t]) && s'.pcs[t].main == m && s'.pcs[t].index == i
    requires |aux'.owner| == |aux.owner| && aux' == aux.(owner := aux.owner[t := aux'.owner[t]])
    requires aux.owner[t].Some? ==> aux'.owner[t] == aux.owner[t]
    ensures ValueLaw(s', n, aux')
  {
    assert ValueLaw(s, n, aux);
  }

  /** The compare-exchange that puts the thread's key into a vacant slot. */
  lemma PlaceKeepsInv(s: State, t: nat, aux: Aux) returns (aux': Aux)
    requires Inv(s, aux) && t < |s.pcs| && (s.pcs[t].Readd? || s.pcs[t].Insert?)
    requires var m := s.pcs[t].main; s.tables[m][Index(s.hashes[t], s.pcs[t].k, |s.tables[m]|)].Vacant?
    ensures Inv(Step(s, t, false), aux')
  {
    var s', m, k, h := Step(s, t, false), s.pcs[t].main, s.pcs[t].k, s.hashes[t];
    var i := Index(h, k, |s.tables[m]|);
    StepIsTyped(s, t, false);
    assert ThreadLaw(s, t, aux);
    aux' := if s.pcs[t].Insert? then aux.(owner := aux.owner[t := Some(s.pcs[t].value)]) else aux;
    ProbeIsShort(s.tables[m], s.hashes, aux.tickets, t, h, k);
    assert aux.tickets[t].Some? && aux.tickets[t].value < Room(|s.tables[m]|);
    PlaceKeepsTable(s.tables[m], s.hashes, aux.tickets, t, k);
    SumUpdate(s.pcs, t, s'.pcs[t], LockWeight());
    assert s'.tables[m][i] == Entry(t, None);
    forall u | 0 <= u < |s.pcs| ensures ThreadLaw(s', u, aux') {
      if u != t {
        OtherThreads(s, s', t, u, m, i, Entry(t, None), aux, aux');
      } else {
        assert Holds(s'.tables[m], t);
      }
    }
    forall n | 0 <= n < |s'.tables| ensures TableLaw(s'.tables[n], s.hashes, aux'.tickets) && ValueLaw(s', n, aux') {
      PlaceKeepsValues(s, s', t, m, i, n, aux, aux');
    }
  }

  /** The store of the value behind a key that is already placed. */
  lemma ValueKeepsInv(s: State, t: nat, aux: Aux)
    requires Inv(s, aux) && t < |s.pcs| && StoresValue(s.pcs[t])
    ensures Inv(Step(s, t, false), aux)
  {
    var s', m, i := Step(s, t, false), s.pcs[t].main, s.pcs[t].index;
    var e := Entry(t, Some(s.pcs[t].value));
    StepIsTyped(s, t, false);
    assert ThreadLaw(s, t, aux) && s.tables[m][i] == Entry(t, None);
    SumUpdate(s.pcs, t, s'.pcs[t], LockWeight());
    SameKeys(s.tables[m], s'.tables[m], s.hashes, aux.tickets);
    forall u | 0 <= u < |s.pcs| ensures ThreadLaw(s', u, aux) {
      if u != t {
        OtherThreads(s, s', t, u, m, i, e, aux, aux);
      } else {
        assert s'.tables[m][i] == e && Holds(s'.tables[m], t);
      }
    }
    forall n | 0 <= n < |s.tables| ensures ValueLaw(s', n, aux) {
      assert ValueLaw(s, n, aux);
    }
  }

  lemma SameKeys(slots: seq<Slot>, slots': seq<Slot>, hashes: seq<nat>, tickets: seq<Option<int>>)
    requires |hashes| == |tickets| && TableLaw(slots, hashes, tickets) && |slots'| == |slots|
    requires forall i | 0 <= i < |slots| :: slots'[i].Entry? == slots[i].Entry? && (slots[i].Entry? ==> slots'[i].key == slots[i].key)
    ensures TableLaw(slots', hashes, tickets)
  {
    forall i | 0 <= i < |slots| ensures SlotLaw(slots', i, hashes, tickets) {
      assert SlotLaw(slots, i, hashes, tickets);
    }
  }

  lemma StepKeepsInv(s: State, t: nat, luck: bool, aux: Aux) returns (aux': Aux)
    requires Inv(s, aux) && t < |s.pcs|
    ensures Inv(Step(s, t, luck), aux')
  {
    aux' := aux;
    var pc, h := s.pcs[t], s.hashes[t];
    if pc.Probe? {
      if s.tables[pc.table][Index(h, pc.k, |s.tables[pc.table]|)].Vacant? { MissKeepsInv(s, t, aux); }
      else if s.tables[pc.table][Index(h, pc.k, |s.tables[pc.table]|)].key == t { HitKeepsInv(s, t, aux); }
      else { PassKeepsInv(s, t, aux); }
    } else if pc.Readd? || pc.Insert? {
      if s.tables[pc.main][Index(h, pc.k, |s.tables[pc.main]|)].Vacant? { aux' := PlaceKeepsInv(s, t, aux); } else { NextSlotKeepsInv(s, t, aux); }
    } else if StoresValue(pc) {
      ValueKeepsInv(s, t, aux);
    } else if pc.Count? || pc.FailResize? || pc.FailCreate? {
      aux' := DrawOrReturnKeepsInv(s, t, aux);
    } else if pc.Resize? && pc.newCount >= |s.tables[pc.main]| / 2 && luck {
      GrowKeepsInv(s, t, aux);
    } else if pc.CreateProducer? && luck {
      CreateKeepsInv(s, t, aux);
      aux' := aux.(maker := aux.maker + [t]);
    } else if Flies(pc) {
      FlightKeepsInv(s, t, luck, aux);
    } else {
      RestKeepsInv(s, t, luck, aux);
    }
  }

  lemma ApplyKeepsInv(s: State, a: Action, aux: Aux) returns (aux': Aux)
    requires Inv(s, aux) && Enabled(s, a)
    ensures Inv(Apply(s, a), aux')
  {
    aux' := aux;
    if a.Run? {
      aux' := StepKeepsInv(s, a.t, a.luck, aux);
    } else {
      assert ThreadLaw(s, a.t, aux);
      MoveKeepsInv(s, a.t, LoadMain, s.resizing, aux);
    }
  }

  lemma {:induction false} RunKeepsInv(run: seq<State>, actions: seq<Action>, i: nat) returns (aux: Aux)
    requires IsRun(run, actions) && i < |run|
    ensures Inv(run[i], aux)
  {
    if i == 0 {
      var n := |run[0].pcs|;
      aux := Aux(seq(n, _ => None), seq(n, _ => None), []);
      SumZero(run[0].pcs, LockWeight());
      SumZero(aux.tickets, TicketWeight());
      forall limit: int | limit > 0 ensures Sum(aux.tickets, BelowWeight(limit)) < limit {
        SumZero(aux.tickets, BelowWeight(limit));
      }
    } else {
      aux := RunKeepsInv(run, actions, i - 1);
      aux := ApplyKeepsInv(run[i - 1], actions[i - 1], aux);
    }
  }

  // ---- What the hash promises --------------------------------------------------------

  function TakenWeight(): Slot -> nat { (e: Slot) => if e.Entry? then 1 else 0 }

  lemma {:induction false} TakenAreDistinct(slots: seq<Slot>, tickets: seq<Option<int>>, limit: int)
    requires forall i | 0 <= i < |slots| && slots[i].Entry? :: slots[i].key < |tickets| && tickets[slots[i].key].Some? && tickets[slots[i].key].value < limit
    requires forall i, j | 0 <= i < j < |slots| && slots[i].Entry? && slots[j].Entry? :: slots[i].key != slots[j].key
    ensures Sum(slots, TakenWeight()) <= Sum(tickets, BelowWeight(limit))
    decreases |slots|
  {
    if slots != [] {
      var e := slots[0];
      if e.Entry? {
        SumUpdate(tickets, e.key, None, BelowWeight(limit));
        TakenAreDistinct(slots[1..], tickets[e.key := None], limit);
      } else {
        TakenAreDistinct(slots[1..], tickets, limit);
      }
    }
  }

  /** The load bound: however late a bigger table comes, and whatever allocations fail, every table in the
      chain stays under three quarters full. */
  lemma TablesStayUnderThreeQuarters(run: seq<State>, actions: seq<Action>, i: nat, m: nat)
    requires IsRun(run, actions) && i < |run| && m < |run[i].tables|
    ensures Sum(run[i].tables[m], TakenWeight()) == 0 || Sum(run[i].tables[m], TakenWeight()) < Room(|run[i].tables[m]|)
  {
    var aux := RunKeepsInv(run, actions, i);
    var slots := run[i].tables[m];
    var room := Room(|slots|);
    forall j | 0 <= j < |slots| && slots[j].Entry?
      ensures slots[j].key < |aux.tickets| && aux.tickets[slots[j].key].Some? && aux.tickets[slots[j].key].value < room
    {
      assert SlotLaw(slots, j, run[i].hashes, aux.tickets);
    }
    TakenAreDistinct(slots, aux.tickets, room);
    if room > 0 {
      assert Sum(aux.tickets, BelowWeight(room)) < room;
    } else {
      ZeroBelowOne(aux.tickets);
      assert Sum(aux.tickets, BelowWeight(1)) < 1;
    }
  }

  /** Every probe loop ends: no thread, looking up, re-adding or inserting, ever passes as many slots as
      the table has, although other threads fill slots under its feet. */
  lemma ProbesEnd(run: seq<State>, actions: seq<Action>, i: nat, t: nat)
    requires IsRun(run, actions) && i < |run| && t < |run[i].pcs| && WellTyped(run[i])
    ensures run[i].pcs[t].Probe? ==> run[i].pcs[t].k < |run[i].tables[run[i].pcs[t].table]|
    ensures run[i].pcs[t].Readd? || run[i].pcs[t].Insert? ==> run[i].pcs[t].k < |run[i].tables[run[i].pcs[t].main]|
  {
    var s := run[i];
    var aux := RunKeepsInv(run, actions, i);
    assert ThreadLaw(s, t, aux);
    if s.pcs[t].Probe? {
      ProbeIsShort(s.tables[s.pcs[t].table], s.hashes, aux.tickets, t, s.hashes[t], s.pcs[t].k);
    } else if s.pcs[t].Readd? || s.pcs[t].Insert? {
      ProbeIsShort(s.tables[s.pcs[t].main], s.hashes, aux.tickets, t, s.hashes[t], s.pcs[t].k);
    }
  }

  /** The entry (m, i) binds thread t to producer p. */
  predicate Binds(s: State, m: nat, i: nat, t: nat, p: nat) {
    m < |s.tables| && i < |s.tables[m]| && s.tables[m][i] == Entry(t, Some(p))
  }

  lemma BindingStays(s: State, a: Action, m: nat, i: nat, t: nat, p: nat, aux: Aux)
    requires Inv(s, aux) && Enabled(s, a) && Binds(s, m, i, t, p)
    ensures Binds(Apply(s, a), m, i, t, p)
  {
    assert ThreadLaw(s, a.t, aux);
  }

  lemma {:induction false} BindingStaysForGood(run: seq<State>, actions: seq<Action>, i: nat, j: nat, m: nat, x: nat,
                                               t: nat, p: nat)
    requires IsRun(run, actions) && i <= j < |run| && Binds(run[i], m, x, t, p)
    ensures Binds(run[j], m, x, t, p)
  {
    if i < j {
      BindingStaysForGood(run, actions, i, j - 1, m, x, t, p);
      var aux := RunKeepsInv(run, actions, j - 1);
      BindingStays(run[j - 1], actions[j - 1], m, x, t, p, aux);
    }
  }

  /** Once a call has given a thread its producer, every later call of that thread succeeds with the same
      one, no matter how the chain has grown since and what allocations fail. */
  lemma SameProducerEveryTime(run: seq<State>, actions: seq<Action>, i: nat, j: nat, t: nat, p: nat)
    requires IsRun(run, actions) && i <= j < |run| && t < |run[i].pcs| && t < |run[j].pcs|
    requires run[i].pcs[t] == Done(Some(p)) && run[j].pcs[t].Done?
    ensures run[j].pcs[t].result == Some(p)
  {
    var aux := RunKeepsInv(run, actions, i);
    var s := run[i];
    assert ThreadLaw(s, t, aux);
    var m :| 0 <= m < |s.tables| && Holds(s.tables[m], t);
    var x :| 0 <= x < |s.tables[m]| && s.tables[m][x].Entry? && s.tables[m][x].key == t;
    assert ValueLaw(s, m, aux);
    BindingStaysForGood(run, actions, i, j, m, x, t, p);
    var aux' := RunKeepsInv(run, actions, j);
    assert ThreadLaw(run[j], t, aux') && ValueLaw(run[j], m, aux');
  }

  /** No two threads share a producer. */
  lemma ProducersAreOwn(run: seq<State>, actions: seq<Action>, i: nat, t: nat, u: nat, p: nat)
    requires IsRun(run, actions) && i < |run| && t < |run[i].pcs| && u < |run[i].pcs|
    requires run[i].pcs[t] == Done(Some(p)) && run[i].pcs[u] == Done(Some(p))
    ensures t == u
  {
    var aux := RunKeepsInv(run, actions, i);
    assert ThreadLaw(run[i], t, aux) && ThreadLaw(run[i], u, aux);
  }
}
