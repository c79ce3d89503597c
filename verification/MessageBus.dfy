/** Delivery of the messages of one name to a fixed set of awaiters.

    Each method is one atomic step of the dispatcher or of a coroutine: a try_dequeue, one awaiter's turn in
    a dispatch loop, a suspension, a resumption.  Between `await_ready` and `await_suspend`, and between the
    turns of a dispatch loop, any other step may come. */
module MessageBus {
  import opened Options

  datatype CoState = RunningState | StopState | QueueResume

  /** What a coroutine is awaiting, or awaited last. */
  datatype Await = Nothing | ToShared(a: nat) | ToNormal(a: nat)

  datatype Promise = Promise(state: CoState, await: Await)

  /** `owner` is the coroutine that the awaiter is a local of; `data` is a message handed over and not yet
      read; `queue` says which shared queue it has. */
  datatype SharedAwait<T> = SharedAwait(owner: nat, hasHandle: bool, queue: nat, data: Option<T>)

  datatype NormalAwait<T> = NormalAwait(owner: nat, hasHandle: bool, suspended: bool, queue: seq<T>)

  /** What comes of a co_await that asks the common queue: nothing yet, a message, or a message taken from the
      queue by a coroutine that then resumes itself through a null handle. */
  datatype Awaited<T> = NotReady | Received(message: T) | Lost(message: T)

  datatype Phase<T> = Idle | SharedAt(data: T, pos: nat) | NormalAt(data: T, pos: nat)

  function One<T>(data: Option<T>): multiset<T> { if data.Some? then multiset{data.value} else multiset{} }

  /** The messages handed over and not yet read. */
  function Handed<T>(shared: seq<SharedAwait<T>>): multiset<T> {
    if shared == [] then multiset{} else Handed(shared[..|shared| - 1]) + One(shared[|shared| - 1].data)
  }

  lemma {:induction false} HandedUpdate<T>(shared: seq<SharedAwait<T>>, a: nat, to: SharedAwait<T>)
    requires a < |shared|
    ensures Handed(shared[a := to]) + One(shared[a].data) == Handed(shared) + One(to.data)
  {
    hide One;
    var n := |shared| - 1;
    if a == n {
      assert shared[a := to][..n] == shared[..n];
    } else {
      HandedUpdate(shared[..n], a, to);
      assert shared[a := to][..n] == shared[..n][a := to];
      Swapped(Handed(shared[..n][a := to]), One(shared[a].data), Handed(shared[..n]), One(to.data),
              One(shared[n].data));
    }
  }

  lemma Swapped<T>(a: multiset<T>, b: multiset<T>, c: multiset<T>, d: multiset<T>, e: multiset<T>)
    requires a + b == c + d
    ensures (a + e) + b == (c + e) + d
  {
    assert (a + e) + b == (a + b) + e;
    assert (c + e) + d == (c + d) + e;
  }

  // ---- The laws ----------------------------------------------------------------------

  /** Every shared awaiter of the name has the same queue. */
  ghost predicate OneQueue<T>(shared: seq<SharedAwait<T>>, queues: seq<seq<T>>) {
    forall a | 0 <= a < |shared| :: shared[a].queue == shared[0].queue < |queues|
  }

  ghost predicate SharedLaw<T>(x: SharedAwait<T>, a: nat, promises: seq<Promise>) {
    && x.owner < |promises|
    && (x.data.Some? <==> promises[x.owner] == Promise(QueueResume, ToShared(a)))
    && (promises[x.owner].await == ToShared(a) ==> x.hasHandle)
  }

  ghost predicate NormalLaw<T>(x: NormalAwait<T>, a: nat, promises: seq<Promise>) {
    && x.owner < |promises|
    && (x.suspended <==> promises[x.owner].await == ToNormal(a) && promises[x.owner].state != RunningState)
    && (promises[x.owner] == Promise(QueueResume, ToNormal(a)) ==> x.queue != [])
    && (x.suspended ==> x.hasHandle)
    && (!x.hasHandle ==> x.queue == [])
  }

  /** A coroutine that is not running awaits something of its own. */
  ghost predicate PromiseLaw<T>(co: nat, p: Promise, shared: seq<SharedAwait<T>>, normal: seq<NormalAwait<T>>) {
    && (p.state != RunningState ==> p.await != Nothing)
    && (p.await.ToShared? ==> p.await.a < |shared| && shared[p.await.a].owner == co)
    && (p.await.ToNormal? ==> p.await.a < |normal| && normal[p.await.a].owner == co)
  }

  ghost predicate AwaitsLaw<T>(shared: seq<SharedAwait<T>>, normal: seq<NormalAwait<T>>, promises: seq<Promise>) {
    && (forall a | 0 <= a < |shared| :: SharedLaw(shared[a], a, promises))
    && (forall a | 0 <= a < |normal| :: NormalLaw(normal[a], a, promises))
    && (forall co | 0 <= co < |promises| :: PromiseLaw(co, promises[co], shared, normal))
  }

  /** What the awaiter has received, and then what is in its queue, is what was dispatched since its first
      suspension. */
  ghost predicate InOrder<T>(normal: seq<NormalAwait<T>>, received: seq<seq<T>>, logs: seq<seq<T>>) {
    && |received| == |logs| == |normal|
    && forall a | 0 <= a < |normal| :: received[a] + normal[a].queue == logs[a]
  }

  /** A coroutine that is still suspended on a normal awaiter has been sent nothing since it was suspended. */
  ghost predicate NoneSince<T>(normal: seq<NormalAwait<T>>, promises: seq<Promise>, logs: seq<seq<T>>, since: seq<nat>) {
    && |since| == |logs| == |normal|
    && forall a | 0 <= a < |normal| && normal[a].owner < |promises| ::
         promises[normal[a].owner] == Promise(StopState, ToNormal(a)) ==> since[a] == |logs[a]|
  }

  lemma NoneSinceStays<T>(normal: seq<NormalAwait<T>>, promises: seq<Promise>, logs: seq<seq<T>>, since: seq<nat>,
                          co: nat, p: Promise)
    requires NoneSince(normal, promises, logs, since) && co < |promises| && (p.state != StopState || !p.await.ToNormal?)
    ensures NoneSince(normal, promises[co := p], logs, since)
  {}

  /** Setting or reading one awaiter's message, with the awaiters' queue still one. */
  lemma SharedUpdate<T>(shared: seq<SharedAwait<T>>, queues: seq<seq<T>>, a: nat, to: SharedAwait<T>)
    requires a < |shared| && OneQueue(shared, queues) && to.queue == shared[a].queue
    ensures OneQueue(shared[a := to], queues) && shared[a := to][0].queue == shared[0].queue
    ensures shared[a].data == None ==> Handed(shared[a := to]) == Handed(shared) + One(to.data)
    ensures to.data == None ==> Handed(shared) == Handed(shared[a := to]) + One(shared[a].data)
  {
    HandedUpdate(shared, a, to);
    assert Handed(shared) + multiset{} == Handed(shared);
    assert Handed(shared[a := to]) + multiset{} == Handed(shared[a := to]);
  }

  lemma OneMoreTaken<T>(received: multiset<T>, lost: multiset<T>, received': multiset<T>, lost': multiset<T>, x: T)
    requires (received' == received + multiset{x} && lost' == lost) || (received' == received && lost' == lost + multiset{x})
    ensures received' + lost' == received + lost + multiset{x}
  {}

  lemma QueueUpdate<T>(shared: seq<SharedAwait<T>>, queues: seq<seq<T>>, a: nat, to: seq<T>)
    requires a < |shared| && OneQueue(shared, queues)
    ensures shared[a].queue == shared[0].queue < |queues| && OneQueue(shared, queues[shared[a].queue := to])
  {}

  /** Each message of the log has been taken, is handed over, or is in the queue, once. */
  ghost predicate SplitsInto<T>(log: multiset<T>, taken: multiset<T>, handed: multiset<T>, queue: seq<T>) {
    log == taken + handed + multiset(queue)
  }

  lemma JoinsQueue<T>(log: multiset<T>, taken: multiset<T>, handed: multiset<T>, queue: seq<T>, x: T)
    requires SplitsInto(log, taken, handed, queue)
    ensures SplitsInto(log + multiset{x}, taken, handed, queue + [x])
  {}

  lemma LeavesQueue<T>(log: multiset<T>, taken: multiset<T>, handed: multiset<T>, queue: seq<T>)
    requires SplitsInto(log, taken, handed, queue) && queue != []
    ensures SplitsInto(log, taken + multiset{queue[0]}, handed, queue[1..])
  {
    assert queue == [queue[0]] + queue[1..];
  }

  class MessageBus<T(==)> {
    var queue: seq<T>
    var shared: seq<SharedAwait<T>>
    var queues: seq<seq<T>>
    var normal: seq<NormalAwait<T>>
    var promises: seq<Promise>
    var phase: Phase<T>

    ghost var sharedLog: multiset<T>         // dispatched to the shared awaiters
    ghost var sharedReceived: multiset<T>
    ghost var lost: multiset<T>              // taken from the common queue and never received
    ghost var received: seq<seq<T>>          // by each normal awaiter
    ghost var logs: seq<seq<T>>              // dispatched to each normal awaiter since its first suspension
    ghost var since: seq<nat>                // how many of these there were at its last suspension

    ghost function CommonQueue(): seq<T>
      requires OneQueue(shared, queues)
      reads `shared, `queues
    {
      if shared == [] then [] else queues[shared[0].queue]
    }

    /** Messages that shared awaiters have taken, by hand-over or off their queue. */
    ghost function Taken(): multiset<T>
      reads `sharedReceived, `lost
    {
      sharedReceived + lost
    }

    lemma TakenIsBoth()
      ensures Taken() == sharedReceived + lost
    {}

    /** The laws, wherever the dispatcher is. */
    ghost predicate Steady()
      reads `shared, `queues, `normal, `promises, `sharedLog, `sharedReceived, `lost, `received, `logs, `since
    {
      && OneQueue(shared, queues)
      && AwaitsLaw(shared, normal, promises)
      && SplitsInto(sharedLog, Taken(), Handed(shared), CommonQueue())
      && InOrder(normal, received, logs)
      && NoneSince(normal, promises, logs, since)
    }

    ghost predicate Valid()
      reads this
    {
      && Steady()
      && (phase.SharedAt? ==> shared != [] && phase.pos <= |shared|)
      && (phase.NormalAt? ==> phase.pos <= |normal|)
    }

    constructor ()
      ensures Valid() && shared == [] && normal == [] && promises == [] && queue == [] && CommonQueue() == []
      ensures sharedLog == sharedReceived == lost == multiset{} && phase == Idle
    {
      queue, shared, queues, normal, promises, phase := [], [], [], [], [], Idle;
      sharedLog, sharedReceived, lost, received, logs, since := multiset{}, multiset{}, multiset{}, [], [], [];
    }

    // ---- Set-up ----------------------------------------------------------------------

    method StartCoroutine() returns (co: nat)
      requires Valid()
      modifies this`promises
      ensures Valid() && co == |old(promises)| && promises == old(promises) + [Promise(RunningState, Nothing)]
    {
      hide OneQueue, InOrder, Handed, Taken;
      co := |promises|;
      NewCoroutineKeeps(shared, normal, promises);
      promises := promises + [Promise(RunningState, Nothing)];
    }

    /** create_shared_message_await: the queue of an awaiter already there, or a new one.  The map is locked
        against it while the dispatcher walks the shared awaiters. */
    method CreateShared(owner: nat) returns (a: nat)
      requires Valid() && owner < |promises| && !phase.SharedAt?
      modifies this`shared, this`queues
      ensures Valid() && a == |old(shared)| && |shared| == a + 1 && shared[..a] == old(shared)
      ensures shared[a].owner == owner && shared[a].data == None && shared[a].queue == shared[0].queue
      ensures !shared[a].hasHandle
      ensures CommonQueue() == old(CommonQueue())
    {
      hide AwaitsLaw, InOrder, Handed, Taken;
      a := |shared|;
      var q := if shared != [] then shared[0].queue else |queues|;
      NewSharedKeeps(shared, normal, promises, SharedAwait(owner, false, q, None));
      if shared == [] {
        queues := queues + [[]];
      }
      shared := shared + [SharedAwait(owner, false, q, None)];
    }

    method CreateNormal(owner: nat) returns (a: nat)
      requires Valid() && owner < |promises| && !phase.NormalAt?
      modifies this`normal, this`received, this`logs, this`since
      ensures Valid() && a == |old(normal)| && normal == old(normal) + [NormalAwait(owner, false, false, [])]
      ensures logs == old(logs) + [[]] && received == old(received) + [[]] && since == old(since) + [0]
    {
      hide AwaitsLaw, OneQueue, Handed, Taken;
      a := |normal|;
      NewNormalKeeps(shared, normal, promises, NormalAwait(owner, false, false, []));
      normal := normal + [NormalAwait(owner, false, false, [])];
      received, logs, since := received + [[]], logs + [[]], since + [0];
    }

    // ---- The dispatcher --------------------------------------------------------------

    method PushMessage(data: T)
      requires Valid()
      modifies this`queue
      ensures Valid() && queue == old(queue) + [data]
    {
      queue := queue + [data];
    }

    /** The dispatcher takes a message and goes to the first loop whose map has the name. */
    method Take()
      requires Valid() && phase == Idle && queue != []
      modifies this`queue, this`phase
      ensures Valid() && queue == old(queue)[1..]
      ensures phase == if shared != [] then SharedAt(old(queue)[0], 0) else NormalAt(old(queue)[0], 0)
    {
      phase := if shared != [] then SharedAt(queue[0], 0) else NormalAt(queue[0], 0);
      queue := queue[1..];
    }

    /** The coroutine is suspended on this awaiter. */
    ghost predicate Suspended(a: nat)
      requires a < |shared|
      reads `shared, `promises
    {
      shared[a].owner < |promises| && promises[shared[a].owner] == Promise(StopState, ToShared(a))
    }

    /** resume_one_coroutine of one shared awaiter. */
    method ResumeOne(a: nat, data: T) returns (resumed: bool)
      requires Valid() && a < |shared|
      modifies this`shared, this`promises, this`sharedLog
      ensures Valid() && resumed == old(Suspended(a))
      ensures shared == if resumed then old(shared)[a := old(shared)[a].(data := Some(data))] else old(shared)
      ensures promises == if resumed then old(promises)[shared[a].owner := Promise(QueueResume, ToShared(a))] else old(promises)
      ensures sharedLog == if resumed then old(sharedLog) + multiset{data} else old(sharedLog)
      ensures CommonQueue() == old(CommonQueue())
    {
      hide InOrder, Handed, Taken, NoneSince;
      var x := shared[a];
      assert SharedLaw(x, a, promises);
      NoneSinceStays(normal, promises, logs, since, shared[a].owner, Promise(QueueResume, ToShared(a)));
      if !x.hasHandle || promises[x.owner].await != ToShared(a) {
        return false;
      }
      if promises[x.owner].state == StopState {
        HandOverKeeps(shared, normal, promises, a, data);
        SharedUpdate(shared, queues, a, x.(data := Some(data)));
        shared := shared[a := x.(data := Some(data))];
        promises := promises[x.owner := Promise(QueueResume, ToShared(a))];
        sharedLog := sharedLog + multiset{data};
        return true;
      }
      return false;
    }

    /** push_message of the first shared awaiter, into the queue of all of them. */
    method PushShared(data: T)
      requires Valid() && shared != []
      modifies this`queues, this`sharedLog
      ensures Valid() && CommonQueue() == old(CommonQueue()) + [data] && sharedLog == old(sharedLog) + multiset{data}
    {
      hide AwaitsLaw, InOrder, Handed, Taken, OneQueue, SplitsInto;
      var q := shared[0].queue;
      QueueUpdate(shared, queues, 0, []);
      QueueUpdate(shared, queues, 0, queues[q] + [data]);
      JoinsQueue(sharedLog, Taken(), Handed(shared), queues[q], data);
      queues := queues[q := queues[q] + [data]];
      sharedLog := sharedLog + multiset{data};
    }

    /** One turn of the loop over the shared awaiters: the message goes to the awaiter whose turn it is if a
        coroutine is suspended on it, and to nobody else; after the last awaiter it goes into their queue. */
    method SharedTurn()
      requires Valid() && phase.SharedAt?
      modifies this`shared, this`promises, this`queues, this`phase, this`sharedLog
      ensures Valid()
      ensures var data, a := old(phase).data, old(phase).pos;
              if a < |old(shared)| && old(Suspended(a)) then
                && phase == NormalAt(data, 0) && shared == old(shared)[a := old(shared)[a].(data := Some(data))]
                && promises == old(promises)[old(shared)[a].owner := Promise(QueueResume, ToShared(a))]
                && CommonQueue() == old(CommonQueue()) && sharedLog == old(sharedLog) + multiset{data}
              else if a < |old(shared)| then
                && phase == SharedAt(data, a + 1) && shared == old(shared) && promises == old(promises)
                && CommonQueue() == old(CommonQueue()) && sharedLog == old(sharedLog)
              else
                && phase == NormalAt(data, 0) && shared == old(shared) && promises == old(promises)
                && CommonQueue() == old(CommonQueue()) + [data] && sharedLog == old(sharedLog) + multiset{data}
    {
      hide Steady, CommonQueue;
      var data, pos := phase.data, phase.pos;
      if pos < |shared| {
        var resumed := ResumeOne(pos, data);
        phase := if resumed then NormalAt(data, 0) else SharedAt(data, pos + 1);
      } else {
        PushShared(data);
        phase := NormalAt(data, 0);
      }
    }

    /** push_message of one normal awaiter. */
    method PushTo(a: nat, data: T)
      requires Valid() && a < |normal|
      modifies this`normal, this`promises, this`logs
      ensures Valid() && |normal| == |old(normal)|
      ensures logs == if old(normal)[a].hasHandle then old(logs)[a := old(logs)[a] + [data]] else old(logs)
      ensures normal == if old(normal)[a].hasHandle then old(normal)[a := old(normal)[a].(queue := old(normal)[a].queue + [data])] else old(normal)
      ensures promises == if old(promises)[old(normal)[a].owner] == Promise(StopState, ToNormal(a))
                          then old(promises)[old(normal)[a].owner := Promise(QueueResume, ToNormal(a))] else old(promises)
    {
      hide OneQueue, Handed, Taken;
      var x := normal[a];
      assert NormalLaw(x, a, promises);
      if !x.hasHandle {
        return;
      }
      var y := x.(queue := x.queue + [data]);
      var p := promises[x.owner];
      var p' := if p == Promise(StopState, ToNormal(a)) then Promise(QueueResume, ToNormal(a)) else p;
      PushKeeps(shared, normal, promises, a, data, p');
      normal := normal[a := y];
      promises := promises[x.owner := p'];
      logs := logs[a := logs[a] + [data]];
    }

    /** The coroutine is suspended on this normal awaiter. */
    ghost predicate Waits(a: nat)
      requires a < |normal|
      reads `normal, `promises
    {
      normal[a].owner < |promises| && promises[normal[a].owner] == Promise(StopState, ToNormal(a))
    }

    lemma OwnerExists(a: nat)
      requires Valid() && a < |normal|
      ensures normal[a].owner < |promises|
    {
      assert NormalLaw(normal[a], a, promises);
    }

    /** One turn of the loop over the normal awaiters: the message goes to the awaiter whose turn it is, if it has
        ever been suspended, and a coroutine that is suspended on it is queued for resumption; no other awaiter
        and no other coroutine is touched. */
    method NormalTurn()
      requires Valid() && phase.NormalAt?
      modifies this`normal, this`promises, this`phase, this`logs
      ensures Valid() && |normal| == |old(normal)|
      ensures phase == if old(phase).pos < |normal| then NormalAt(old(phase).data, old(phase).pos + 1) else Idle
      ensures var a, data := old(phase).pos, old(phase).data;
              if a < |normal| && old(normal)[a].hasHandle then
                && normal == old(normal)[a := old(normal)[a].(queue := old(normal)[a].queue + [data])]
                && logs == old(logs)[a := old(logs)[a] + [data]]
              else normal == old(normal) && logs == old(logs)
      ensures var a := old(phase).pos;
              promises == if a < |normal| && old(Waits(a)) then old(promises)[old(normal)[a].owner := Promise(QueueResume, ToNormal(a))]
                          else old(promises)
    {
      hide Steady, CommonQueue;
      var data, pos := phase.data, phase.pos;
      if pos < |normal| {
        OwnerExists(pos);
        PushTo(pos, data);
        phase := NormalAt(data, pos + 1);
      } else {
        phase := Idle;
      }
    }

    /** The whole loop over the normal awaiters: each that has ever been suspended has the message at the back of its
        queue, every coroutine that was suspended on one of them is queued for resumption, and no other is. */
    method NormalTurns()
      requires Valid() && phase.NormalAt? && phase.pos == 0
      modifies this`normal, this`promises, this`phase, this`logs
      ensures Valid() && phase == Idle && |normal| == |old(normal)| && |promises| == |old(promises)|
      ensures forall a | 0 <= a < |normal| ::
                normal[a] == if old(normal)[a].hasHandle then old(normal)[a].(queue := old(normal)[a].queue + [old(phase).data]) else old(normal)[a]
      ensures forall co | 0 <= co < |promises| ::
                promises[co] == if old(WaitsForNormal(co)) then Promise(QueueResume, old(promises)[co].await) else old(promises)[co]
    {
      hide Steady, CommonQueue;
      ghost var data := phase.data;
      while phase.NormalAt?
        invariant Valid() && |normal| == |old(normal)| && |promises| == |old(promises)|
        invariant phase == Idle || (phase.NormalAt? && phase.data == data)
        invariant forall a | 0 <= a < |normal| ::
                    normal[a] == if (phase.NormalAt? ==> a < phase.pos) && old(normal)[a].hasHandle
                                 then old(normal)[a].(queue := old(normal)[a].queue + [data]) else old(normal)[a]
        invariant forall co | 0 <= co < |promises| ::
                    promises[co] == if old(WaitsForNormal(co)) && (phase.NormalAt? ==> old(promises)[co].await.a < phase.pos)
                                    then Promise(QueueResume, old(promises)[co].await) else old(promises)[co]
        decreases phase.NormalAt?, if phase.NormalAt? then |normal| - phase.pos else 0
      {
        AwaitersAreOwn();
        NormalTurn();
      }
    }

    // ---- Coroutines ------------------------------------------------------------------

    /** What a caller has to see to before its coroutine awaits: it has been suspended on this awaiter before,
        or there is nothing in the common queue. */
    ghost predicate AwaitIsSafe(a: nat)
      requires OneQueue(shared, queues) && a < |shared|
      reads `shared, `queues
    {
      shared[a].hasHandle || CommonQueue() == []
    }

    /** try_dequeue on the common queue, which has something. */
    method TakeFront(a: nat, ghost arrives: bool) returns (x: T)
      requires Valid() && a < |shared| && CommonQueue() != []
      modifies this`queues, this`sharedReceived, this`lost
      ensures Valid() && x == old(CommonQueue())[0] && CommonQueue() == old(CommonQueue())[1..]
      ensures sharedReceived == if arrives then old(sharedReceived) + multiset{x} else old(sharedReceived)
      ensures lost == if arrives then old(lost) else old(lost) + multiset{x}
    {
      hide AwaitsLaw, InOrder, Handed, Taken, OneQueue, SplitsInto;
      QueueUpdate(shared, queues, a, []);
      var q := shared[a].queue;
      x := queues[q][0];
      LeavesQueue(sharedLog, Taken(), Handed(shared), queues[q]);
      QueueUpdate(shared, queues, a, queues[q][1..]);
      TakenIsBoth();
      ghost var received0, lost0 := sharedReceived, lost;
      queues := queues[q := queues[q][1..]];
      sharedReceived := if arrives then sharedReceived + multiset{x} else sharedReceived;
      lost := if arrives then lost else lost + multiset{x};
      TakenIsBoth();
      OneMoreTaken(received0, lost0, sharedReceived, lost, x);
    }

    /** await_ready of a shared awaiter and, when it took a message, await_resume, which goes through the handle
        that only a suspension sets. */
    method ReadyShared(a: nat) returns (r: Awaited<T>)
      requires Valid() && a < |shared| && promises[shared[a].owner].state == RunningState
      modifies this`queues, this`sharedReceived, this`lost
      ensures Valid() && (r.Lost? <==> !old(AwaitIsSafe(a)))
      ensures old(AwaitIsSafe(a)) ==> lost == old(lost)
      ensures if old(CommonQueue()) == [] then
                r == NotReady && CommonQueue() == [] && sharedReceived == old(sharedReceived)
              else
                && !r.NotReady? && CommonQueue() == old(CommonQueue())[1..] && r.message == old(CommonQueue())[0]
                && sharedReceived == (if r.Lost? then old(sharedReceived) else old(sharedReceived) + multiset{r.message})
                && lost == (if r.Lost? then old(lost) + multiset{r.message} else old(lost))
    {
      hide AwaitsLaw, InOrder, Handed, Taken;
      var q := shared[a].queue;
      if queues[q] == [] {
        return NotReady;
      }
      var message := TakeFront(a, shared[a].hasHandle);
      r := if shared[a].hasHandle then Received(message) else Lost(message);
    }

    /** await_suspend of a shared awaiter. */
    method SuspendShared(a: nat)
      requires Valid() && a < |shared| && promises[shared[a].owner].state == RunningState
      modifies this`shared, this`promises
      ensures Valid() && shared == old(shared)[a := old(shared)[a].(hasHandle := true)]
      ensures promises == old(promises)[shared[a].owner := Promise(StopState, ToShared(a))]
    {
      hide InOrder, Handed, Taken, NoneSince;
      var x := shared[a];
      SuspendSharedKeeps(shared, normal, promises, a);
      assert SharedLaw(x, a, promises);
      NoneSinceStays(normal, promises, logs, since, shared[a].owner, Promise(StopState, ToShared(a)));
      SharedUpdate(shared, queues, a, x.(hasHandle := true));
      shared := shared[a := x.(hasHandle := true)];
      promises := promises[x.owner := Promise(StopState, ToShared(a))];
    }

    /** await_ready of a normal awaiter. */
    method ReadyNormal(a: nat) returns (r: Option<T>)
      requires Valid() && a < |normal| && promises[normal[a].owner].state == RunningState
      modifies this`normal, this`received
      ensures Valid()
      ensures var q := old(normal)[a].queue;
              if q == [] then r == None && normal == old(normal) && received == old(received)
              else r == Some(q[0]) && normal == old(normal)[a := old(normal)[a].(queue := q[1..])] && received == old(received)[a := old(received)[a] + [q[0]]]
      ensures r.Some? ==> normal[a].hasHandle
    {
      hide OneQueue, Handed, Taken;
      var x := normal[a];
      assert NormalLaw(x, a, promises);
      if x.queue == [] {
        return None;
      }
      r := Some(x.queue[0]);
      TakeKeeps(shared, normal, promises, a, x.(queue := x.queue[1..]), promises[x.owner]);
      assert promises[x.owner := promises[x.owner]] == promises;
      normal := normal[a := x.(queue := x.queue[1..])];
      received := received[a := received[a] + [r.value]];
    }

    /** await_suspend of a normal awaiter. */
    method SuspendNormal(a: nat)
      requires Valid() && a < |normal| && promises[normal[a].owner].state == RunningState
      modifies this`normal, this`promises, this`since
      ensures Valid() && normal == old(normal)[a := old(normal)[a].(hasHandle := true, suspended := true)]
      ensures promises == old(promises)[normal[a].owner := Promise(StopState, ToNormal(a))]
      ensures since == old(since)[a := |logs[a]|]
    {
      hide OneQueue, Handed, Taken;
      var x := normal[a];
      SuspendNormalKeeps(shared, normal, promises, a);
      normal := normal[a := x.(hasHandle := true, suspended := true)];
      promises := promises[x.owner := Promise(StopState, ToNormal(a))];
      since := since[a := |logs[a]|];
    }

    /** The executor resumes a coroutine, which goes on in await_resume: of a shared awaiter, with the message
        handed over; of a normal one, with the first message of its queue, for which its loop need not turn. */
    method ResumeCoroutine(co: nat) returns (x: T)
      requires Valid() && co < |promises| && promises[co].state == QueueResume
      modifies this`shared, this`normal, this`promises, this`sharedReceived, this`received
      ensures Valid() && promises == old(promises)[co := old(promises)[co].(state := RunningState)]
      ensures old(promises)[co].await.ToShared? ==>
                var a := old(promises)[co].await.a;
                a < |old(shared)| && old(shared)[a].data == Some(x) && shared == old(shared)[a := old(shared)[a].(data := None)] &&
                sharedReceived == old(sharedReceived) + multiset{x} && normal == old(normal) && received == old(received)
      ensures old(promises)[co].await.ToNormal? ==>
                var a := old(promises)[co].await.a;
                a < |old(normal)| && old(normal)[a].queue != [] && x == old(normal)[a].queue[0] &&
                normal == old(normal)[a := old(normal)[a].(queue := old(normal)[a].queue[1..], suspended := false)] &&
                received == old(received)[a := old(received)[a] + [x]] && shared == old(shared) && sharedReceived == old(sharedReceived)
    {
      hide OneQueue, Handed, InOrder, AwaitsLaw;
      AwaitsOwn(shared, normal, promises, co);
      if promises[co].await.ToShared? {
        x := ResumeShared(promises[co].await.a);
      } else {
        x := ResumeNormal(promises[co].await.a);
      }
    }

    /** await_resume of a shared awaiter. */
    method ResumeShared(a: nat) returns (x: T)
      requires Valid() && a < |shared| && shared[a].owner < |promises|
      requires promises[shared[a].owner] == Promise(QueueResume, ToShared(a))
      modifies this`shared, this`promises, this`sharedReceived
      ensures Valid() && promises == old(promises)[old(shared)[a].owner := Promise(RunningState, ToShared(a))]
      ensures old(shared)[a].data == Some(x) && shared == old(shared)[a := old(shared)[a].(data := None)]
      ensures sharedReceived == old(sharedReceived) + multiset{x}
    {
      hide OneQueue, Handed, InOrder, NoneSince;
      assert SharedLaw(shared[a], a, promises);
      x := shared[a].data.value;
      NoneSinceStays(normal, promises, logs, since, shared[a].owner, Promise(RunningState, ToShared(a)));
      SharedUpdate(shared, queues, a, shared[a].(data := None));
      ReadKeeps(shared, normal, promises, a);
      promises := promises[shared[a].owner := Promise(RunningState, ToShared(a))];
      shared := shared[a := shared[a].(data := None)];
      sharedReceived := sharedReceived + multiset{x};
    }

    /** await_resume of a normal awaiter. */
    method ResumeNormal(a: nat) returns (x: T)
      requires Valid() && a < |normal| && normal[a].owner < |promises|
      requires promises[normal[a].owner] == Promise(QueueResume, ToNormal(a))
      modifies this`normal, this`promises, this`received
      ensures Valid() && promises == old(promises)[old(normal)[a].owner := Promise(RunningState, ToNormal(a))]
      ensures old(normal)[a].queue != [] && x == old(normal)[a].queue[0]
      ensures normal == old(normal)[a := old(normal)[a].(queue := old(normal)[a].queue[1..], suspended := false)]
      ensures received == old(received)[a := old(received)[a] + [x]]
    {
      hide OneQueue, Handed, Taken;
      assert NormalLaw(normal[a], a, promises);
      x := normal[a].queue[0];
      TakeKeeps(shared, normal, promises, a, normal[a].(queue := normal[a].queue[1..], suspended := false),
                Promise(RunningState, ToNormal(a)));
      promises := promises[normal[a].owner := Promise(RunningState, ToNormal(a))];
      normal := normal[a := normal[a].(queue := normal[a].queue[1..], suspended := false)];
      received := received[a := received[a] + [x]];
    }

    /** The coroutine is suspended on one of its normal awaiters. */
    ghost predicate WaitsForNormal(co: nat)
      requires co < |promises|
      reads `promises
    {
      promises[co].state == StopState && promises[co].await.ToNormal?
    }

    lemma AwaitersAreOwn()
      requires Valid()
      ensures forall co | 0 <= co < |promises| && promises[co].await.ToNormal? ::
                promises[co].await.a < |normal| && normal[promises[co].await.a].owner == co
    {
      forall co | 0 <= co < |promises| && promises[co].await.ToNormal?
        ensures promises[co].await.a < |normal| && normal[promises[co].await.a].owner == co
      {
        assert PromiseLaw(co, promises[co], shared, normal);
      }
    }

    // ---- What the laws say -------------------------------------------------------------

    /** As long as no await was unsafe, each message dispatched to the shared awaiters was received, is handed
        over, or is in their queue, exactly once. */
    lemma DeliveredOnce()
      requires Valid() && lost == multiset{}
      ensures sharedLog == sharedReceived + Handed(shared) + multiset(CommonQueue())
    {
      hide Handed, CommonQueue;
      assert Taken() == sharedReceived;
      assert sharedReceived + multiset{} == sharedReceived;
    }

    /** A coroutine still suspended on a normal awaiter has been sent nothing since it was suspended: what may be
        in the queue came before, between its await_ready and its await_suspend. */
    lemma SuspendedIsUnsent(a: nat)
      requires Valid() && a < |normal| && Waits(a)
      ensures since[a] == |logs[a]| && received[a] + normal[a].queue == logs[a][..since[a]]
    {}

    /** The loop of a normal awaiter's await_resume finds a message at once. */
    lemma SpinFinds(co: nat)
      requires Valid() && co < |promises| && promises[co].state == QueueResume && promises[co].await.ToNormal?
      ensures promises[co].await.a < |normal| && normal[promises[co].await.a].queue != []
    {
      assert PromiseLaw(co, promises[co], shared, normal);
      assert NormalLaw(normal[promises[co].await.a], promises[co].await.a, promises);
    }

    /** A normal awaiter without a handle is sent nothing, so that awaiting it is always safe. */
    lemma NormalIsSafe(a: nat)
      requires Valid() && a < |normal| && !normal[a].hasHandle
      ensures normal[a].queue == [] && received[a] == logs[a]
    {
      assert NormalLaw(normal[a], a, promises);
    }

    /** A message handed over waits for the one coroutine that is being resumed for it: no two awaiters hold
        one for the same coroutine. */
    lemma OneMessageEach(a: nat, b: nat)
      requires Valid() && a < |shared| && b < |shared| && a != b && shared[a].data.Some? && shared[b].data.Some?
      ensures shared[a].owner != shared[b].owner
      ensures promises[shared[a].owner] == Promise(QueueResume, ToShared(a))
    {
      assert SharedLaw(shared[a], a, promises) && SharedLaw(shared[b], b, promises);
    }
  }

  /** A message that comes before the first suspension goes into the common queue. */
  method UnawaitedMessage<T(==)>(message: T) returns (bus: MessageBus<T>)
    ensures fresh(bus) && bus.Valid() && |bus.shared| == 1 && !bus.shared[0].hasHandle && bus.CommonQueue() == [message]
    ensures bus.promises == [Promise(RunningState, Nothing)] && bus.shared[0].owner == 0
    ensures bus.sharedReceived == bus.lost == multiset{}
  {
    bus := new MessageBus();
    hide bus.Valid, bus.CommonQueue;
    var co := bus.StartCoroutine();
    var a := bus.CreateShared(co);
    bus.PushMessage(message);
    bus.Take();
    bus.SharedTurn();
    bus.SharedTurn();
  }

  /** And the coroutine's first co_await takes it from there and resumes through a null handle. */
  method LostAtFirstAwait<T(==)>(message: T) returns (bus: MessageBus<T>)
    ensures bus.Valid() && bus.lost == multiset{message} && bus.sharedReceived == multiset{}
  {
    bus := UnawaitedMessage(message);
    var r := bus.ReadyShared(0);
  }

  // ---- What each step does to the laws -------------------------------------------------

  /** A step of one coroutine, and of awaiters of its own only, has just those laws to keep. */
  lemma OwnStep<T>(shared: seq<SharedAwait<T>>, normal: seq<NormalAwait<T>>, promises: seq<Promise>,
                   shared': seq<SharedAwait<T>>, normal': seq<NormalAwait<T>>, co: nat, p: Promise)
    requires AwaitsLaw(shared, normal, promises) && co < |promises| && |shared'| == |shared| && |normal'| == |normal|
    requires forall a | 0 <= a < |shared| :: shared'[a].owner == shared[a].owner && (shared[a].owner != co ==> shared'[a] == shared[a])
    requires forall a | 0 <= a < |normal| :: normal'[a].owner == normal[a].owner && (normal[a].owner != co ==> normal'[a] == normal[a])
    requires forall a | 0 <= a < |shared| && shared[a].owner == co :: SharedLaw(shared'[a], a, promises[co := p])
    requires forall a | 0 <= a < |normal| && normal[a].owner == co :: NormalLaw(normal'[a], a, promises[co := p])
    requires PromiseLaw(co, p, shared', normal')
    ensures AwaitsLaw(shared', normal', promises[co := p])
  {
    forall a | 0 <= a < |shared'| ensures SharedLaw(shared'[a], a, promises[co := p]) {
      assert SharedLaw(shared[a], a, promises);
    }
    forall a | 0 <= a < |normal'| ensures NormalLaw(normal'[a], a, promises[co := p]) {
      assert NormalLaw(normal[a], a, promises);
    }
    var promises' := promises[co := p];
    forall c | 0 <= c < |promises| ensures PromiseLaw(c, promises'[c], shared', normal') {
      assert PromiseLaw(c, promises[c], shared, normal);
    }
  }

  /** A coroutine that is to be resumed awaits one of its own awaiters. */
  lemma AwaitsOwn<T>(shared: seq<SharedAwait<T>>, normal: seq<NormalAwait<T>>, promises: seq<Promise>, co: nat)
    requires AwaitsLaw(shared, normal, promises) && co < |promises| && promises[co].state != RunningState
    ensures match promises[co].await
            case Nothing => false
            case ToShared(a) => a < |shared| && shared[a].owner == co
            case ToNormal(a) => a < |normal| && normal[a].owner == co
  {
    assert PromiseLaw(co, promises[co], shared, normal);
  }

  lemma HandOverKeeps<T>(shared: seq<SharedAwait<T>>, normal: seq<NormalAwait<T>>, promises: seq<Promise>, a: nat,
                         data: T)
    requires AwaitsLaw(shared, normal, promises) && a < |shared|
    requires promises[shared[a].owner] == Promise(StopState, ToShared(a))
    ensures AwaitsLaw(shared[a := shared[a].(data := Some(data))], normal, promises[shared[a].owner := Promise(QueueResume, ToShared(a))])
    ensures shared[a].data == None
  {
    var co, p, shared' := shared[a].owner, Promise(QueueResume, ToShared(a)), shared[a := shared[a].(data := Some(data))];
    assert SharedLaw(shared[a], a, promises);
    forall b | 0 <= b < |shared| && shared[b].owner == co ensures SharedLaw(shared'[b], b, promises[co := p]) {
      assert SharedLaw(shared[b], b, promises);
    }
    forall b | 0 <= b < |normal| && normal[b].owner == co ensures NormalLaw(normal[b], b, promises[co := p]) {
      assert NormalLaw(normal[b], b, promises);
    }
    OwnStep(shared, normal, promises, shared', normal, co, p);
  }

  lemma ReadKeeps<T>(shared: seq<SharedAwait<T>>, normal: seq<NormalAwait<T>>, promises: seq<Promise>, a: nat)
    requires AwaitsLaw(shared, normal, promises) && a < |shared|
    requires promises[shared[a].owner] == Promise(QueueResume, ToShared(a))
    ensures AwaitsLaw(shared[a := shared[a].(data := None)], normal, promises[shared[a].owner := Promise(RunningState, ToShared(a))])
  {
    var co, p, shared' := shared[a].owner, Promise(RunningState, ToShared(a)), shared[a := shared[a].(data := None)];
    assert SharedLaw(shared[a], a, promises);
    forall b | 0 <= b < |shared| && shared[b].owner == co ensures SharedLaw(shared'[b], b, promises[co := p]) {
      assert SharedLaw(shared[b], b, promises);
    }
    forall b | 0 <= b < |normal| && normal[b].owner == co ensures NormalLaw(normal[b], b, promises[co := p]) {
      assert NormalLaw(normal[b], b, promises);
    }
    OwnStep(shared, normal, promises, shared', normal, co, p);
  }

  lemma SuspendSharedKeeps<T>(shared: seq<SharedAwait<T>>, normal: seq<NormalAwait<T>>, promises: seq<Promise>, a: nat)
    requires AwaitsLaw(shared, normal, promises) && a < |shared| && shared[a].owner < |promises|
    requires promises[shared[a].owner].state == RunningState
    ensures AwaitsLaw(shared[a := shared[a].(hasHandle := true)], normal, promises[shared[a].owner := Promise(StopState, ToShared(a))])
  {
    var co, p, shared' := shared[a].owner, Promise(StopState, ToShared(a)), shared[a := shared[a].(hasHandle := true)];
    assert SharedLaw(shared[a], a, promises);
    forall b | 0 <= b < |shared| && shared[b].owner == co ensures SharedLaw(shared'[b], b, promises[co := p]) {
      assert SharedLaw(shared[b], b, promises);
    }
    forall b | 0 <= b < |normal| && normal[b].owner == co ensures NormalLaw(normal[b], b, promises[co := p]) {
      assert NormalLaw(normal[b], b, promises);
    }
    OwnStep(shared, normal, promises, shared', normal, co, p);
  }

  lemma SuspendNormalKeeps<T>(shared: seq<SharedAwait<T>>, normal: seq<NormalAwait<T>>, promises: seq<Promise>, a: nat)
    requires AwaitsLaw(shared, normal, promises) && a < |normal| && normal[a].owner < |promises|
    requires promises[normal[a].owner].state == RunningState
    ensures AwaitsLaw(shared, normal[a := normal[a].(hasHandle := true, suspended := true)], promises[normal[a].owner := Promise(StopState, ToNormal(a))])
  {
    var co, p, normal' := normal[a].owner, Promise(StopState, ToNormal(a)), normal[a := normal[a].(hasHandle := true, suspended := true)];
    forall b | 0 <= b < |shared| && shared[b].owner == co ensures SharedLaw(shared[b], b, promises[co := p]) {
      assert SharedLaw(shared[b], b, promises);
    }
    forall b | 0 <= b < |normal| && normal[b].owner == co ensures NormalLaw(normal'[b], b, promises[co := p]) {
      assert NormalLaw(normal[b], b, promises);
    }
    OwnStep(shared, normal, promises, shared, normal', co, p);
  }

  /** A message for a normal awaiter, which resumes its coroutine if that waits for it. */
  lemma PushKeeps<T>(shared: seq<SharedAwait<T>>, normal: seq<NormalAwait<T>>, promises: seq<Promise>, a: nat, data: T,
                     p: Promise)
    requires AwaitsLaw(shared, normal, promises) && a < |normal| && normal[a].owner < |promises| && normal[a].hasHandle
    requires p == if promises[normal[a].owner] == Promise(StopState, ToNormal(a)) then Promise(QueueResume, ToNormal(a)) else promises[normal[a].owner]
    ensures AwaitsLaw(shared, normal[a := normal[a].(queue := normal[a].queue + [data])], promises[normal[a].owner := p])
  {
    var co, normal' := normal[a].owner, normal[a := normal[a].(queue := normal[a].queue + [data])];
    assert PromiseLaw(co, promises[co], shared, normal);
    forall b | 0 <= b < |shared| && shared[b].owner == co ensures SharedLaw(shared[b], b, promises[co := p]) {
      assert SharedLaw(shared[b], b, promises);
    }
    forall b | 0 <= b < |normal| && normal[b].owner == co ensures NormalLaw(normal'[b], b, promises[co := p]) {
      assert NormalLaw(normal[b], b, promises);
    }
    OwnStep(shared, normal, promises, shared, normal', co, p);
  }

  /** A message taken by the awaiter's own coroutine, running or resumed for it. */
  lemma TakeKeeps<T>(shared: seq<SharedAwait<T>>, normal: seq<NormalAwait<T>>, promises: seq<Promise>, a: nat,
                     y: NormalAwait<T>, p: Promise)
    requires AwaitsLaw(shared, normal, promises) && a < |normal| && normal[a].owner < |promises|
    requires normal[a].queue != []
    requires p.state == RunningState && p.await == promises[normal[a].owner].await
    requires promises[normal[a].owner].state == RunningState || promises[normal[a].owner] == Promise(QueueResume, ToNormal(a))
    requires y == normal[a].(queue := normal[a].queue[1..], suspended := false)
    ensures AwaitsLaw(shared, normal[a := y], promises[normal[a].owner := p])
  {
    var co, normal' := normal[a].owner, normal[a := y];
    assert PromiseLaw(co, promises[co], shared, normal);
    forall b | 0 <= b < |shared| && shared[b].owner == co ensures SharedLaw(shared[b], b, promises[co := p]) {
      assert SharedLaw(shared[b], b, promises);
    }
    forall b | 0 <= b < |normal| && normal[b].owner == co ensures NormalLaw(normal'[b], b, promises[co := p]) {
      assert NormalLaw(normal[b], b, promises);
    }
    OwnStep(shared, normal, promises, shared, normal', co, p);
  }

  lemma NewSharedKeeps<T>(shared: seq<SharedAwait<T>>, normal: seq<NormalAwait<T>>, promises: seq<Promise>,
                          x: SharedAwait<T>)
    requires AwaitsLaw(shared, normal, promises) && x.owner < |promises| && x.data == None
    ensures AwaitsLaw(shared + [x], normal, promises)
    ensures Handed(shared + [x]) == Handed(shared)
  {
    var shared' := shared + [x];
    assert shared'[..|shared|] == shared;
    assert PromiseLaw(x.owner, promises[x.owner], shared, normal);
    forall a | 0 <= a < |shared'| ensures SharedLaw(shared'[a], a, promises) {
      if a < |shared| {
        assert SharedLaw(shared[a], a, promises);
      }
    }
    forall co | 0 <= co < |promises| ensures PromiseLaw(co, promises[co], shared', normal) {
      assert PromiseLaw(co, promises[co], shared, normal);
    }
  }

  lemma NewCoroutineKeeps<T>(shared: seq<SharedAwait<T>>, normal: seq<NormalAwait<T>>, promises: seq<Promise>)
    requires AwaitsLaw(shared, normal, promises)
    ensures AwaitsLaw(shared, normal, promises + [Promise(RunningState, Nothing)])
  {
    var promises' := promises + [Promise(RunningState, Nothing)];
    forall a | 0 <= a < |shared| ensures SharedLaw(shared[a], a, promises') {
      assert SharedLaw(shared[a], a, promises);
    }
    forall a | 0 <= a < |normal| ensures NormalLaw(normal[a], a, promises') {
      assert NormalLaw(normal[a], a, promises);
    }
    forall co | 0 <= co < |promises'| ensures PromiseLaw(co, promises'[co], shared, normal) {
      if co < |promises| {
        assert PromiseLaw(co, promises[co], shared, normal);
      }
    }
  }

  lemma NewNormalKeeps<T>(shared: seq<SharedAwait<T>>, normal: seq<NormalAwait<T>>, promises: seq<Promise>,
                          x: NormalAwait<T>)
    requires AwaitsLaw(shared, normal, promises) && x.owner < |promises| && !x.suspended && !x.hasHandle
    requires x.queue == []
    ensures AwaitsLaw(shared, normal + [x], promises)
  {
    var normal' := normal + [x];
    assert PromiseLaw(x.owner, promises[x.owner], shared, normal);
    forall a | 0 <= a < |normal'| ensures NormalLaw(normal'[a], a, promises) {
      if a < |normal| {
        assert NormalLaw(normal[a], a, promises);
      }
    }
    forall co | 0 <= co < |promises| ensures PromiseLaw(co, promises[co], shared, normal') {
      assert PromiseLaw(co, promises[co], shared, normal);
    }
  }
}
