/** The thread pool that resumes coroutines: a priority queue under a mutex, and a condition variable that
    is notified only when the count of waiting threads is above zero.

    Each method is one critical section, or one step outside the lock.  The threads blocked on the condition
    variable are part of the state: `Sleeping` until a notification, or a spurious wake-up, reaches them. */
module CoExecutor {
  import opened Counting

  const WAIT_COUNT_RANGE: nat := 0x1_0000

  /** A worker: between critical sections, blocked, woken but not yet holding the mutex again, resuming a
      coroutine, or returned. */
  datatype Worker<H> = Outside | Sleeping | Notified | Resuming(handle: H) | Gone

  type Priority = p: nat | p < 0x100

  datatype Queued<H> = Queued(handle: H, priority: Priority)

  function SleepWeight<H>(): Worker<H> -> nat { (w: Worker<H>) => if w.Sleeping? then 1 else 0 }
  function NoticeWeight<H>(): Worker<H> -> nat { (w: Worker<H>) => if w.Notified? then 1 else 0 }
  function WaitWeight<H>(): Worker<H> -> nat { (w: Worker<H>) => if w.Sleeping? || w.Notified? then 1 else 0 }

  function Woken<H>(w: Worker<H>): Worker<H> { if w.Sleeping? then Notified else w }

  function Handles<H>(queue: seq<Queued<H>>): multiset<H> {
    if queue == [] then multiset{} else Handles(queue[..|queue| - 1]) + multiset{queue[|queue| - 1].handle}
  }

  /** No queued handle has a higher priority. */
  predicate IsTop<H>(queue: seq<Queued<H>>, k: nat) {
    k < |queue| && forall i | 0 <= i < |queue| :: queue[i].priority <= queue[k].priority
  }

  /** If a worker sleeps un-notified, every queued handle has a notified worker to take it. */
  predicate NoHandleWaits<H>(queue: seq<Queued<H>>, workers: seq<Worker<H>>) {
    Sum(workers, SleepWeight()) > 0 ==> |queue| <= Sum(workers, NoticeWeight())
  }

  lemma {:induction false} TopExists<H>(queue: seq<Queued<H>>) returns (k: nat)
    requires queue != []
    ensures IsTop(queue, k)
  {
    var n := |queue| - 1;
    if n == 0 {
      k := 0;
    } else {
      k := TopExists(queue[..n]);
      assert forall i | 0 <= i < n :: queue[..n][i] == queue[i];
      if queue[n].priority > queue[k].priority {
        k := n;
      }
    }
  }

  lemma LastHandle<H>(queue: seq<Queued<H>>, front: seq<Queued<H>>, last: Queued<H>)
    requires queue == front + [last]
    ensures Handles(queue) == Handles(front) + multiset{last.handle}
  {
    assert queue[..|queue| - 1] == front;
  }

  lemma {:induction false} HandlesWithout<H>(queue: seq<Queued<H>>, k: nat)
    requires k < |queue|
    ensures Handles(queue) == Handles(queue[..k] + queue[k + 1..]) + multiset{queue[k].handle}
  {
    hide Handles;
    var n := |queue| - 1;
    LastHandle(queue, queue[..n], queue[n]);
    if k < n {
      var front := queue[..n][..k] + queue[..n][k + 1..];
      HandlesWithout(queue[..n], k);
      assert queue[..k] + queue[k + 1..] == front + [queue[n]];
      LastHandle(queue[..k] + queue[k + 1..], front, queue[n]);
    } else {
      assert queue[..k] + queue[k + 1..] == queue[..n];
    }
  }

  /** The sums of the three kinds after one worker changes. */
  lemma WorkerChanges<H>(workers: seq<Worker<H>>, w: nat, to: Worker<H>)
    requires w < |workers|
    ensures var workers' := workers[w := to];
            && Sum(workers', SleepWeight()) == Sum(workers, SleepWeight()) - SleepWeight()(workers[w]) + SleepWeight()(to)
            && Sum(workers', NoticeWeight()) == Sum(workers, NoticeWeight()) - NoticeWeight()(workers[w]) + NoticeWeight()(to)
            && Sum(workers', WaitWeight()) == Sum(workers, WaitWeight()) - WaitWeight()(workers[w]) + WaitWeight()(to)
  {
    SumUpdate(workers, w, to, SleepWeight());
    SumUpdate(workers, w, to, NoticeWeight());
    SumUpdate(workers, w, to, WaitWeight());
  }

  lemma {:induction false} WaitersAreBoth<H>(workers: seq<Worker<H>>)
    ensures Sum(workers, WaitWeight()) == Sum(workers, SleepWeight()) + Sum(workers, NoticeWeight()) <= |workers|
  {
    if workers != [] {
      WaitersAreBoth(workers[1..]);
    }
  }

  lemma {:induction false} SameWeights<H>(a: seq<Worker<H>>, b: seq<Worker<H>>)
    requires |a| == |b| && forall i | 0 <= i < |a| :: WaitWeight()(a[i]) == WaitWeight()(b[i])
    ensures Sum(a, WaitWeight()) == Sum(b, WaitWeight())
  {
    SumMonotone(a, b, WaitWeight());
    SumMonotone(b, a, WaitWeight());
  }

  /** The 16-bit counter holds n, as far as it can. */
  predicate Counts(counter: nat, n: nat) { counter == n % WAIT_COUNT_RANGE }

  lemma OneLess(counter: nat, n: nat)
    requires n > 0 && Counts(counter, n)
    ensures (counter - 1) % WAIT_COUNT_RANGE >= 0 && Counts((counter - 1) % WAIT_COUNT_RANGE, n - 1)
  {}

  lemma OneMore(counter: nat, n: nat)
    requires Counts(counter, n)
    ensures Counts((counter + 1) % WAIT_COUNT_RANGE, n + 1)
  {}

  /** The waiting threads are counted; before stop no handle waits; after stop nobody sleeps. */
  ghost predicate WaitLaw<H>(counter: nat, queue: seq<Queued<H>>, workers: seq<Worker<H>>, stopping: bool,
                             toldAll: bool) {
    && Counts(counter, Sum(workers, WaitWeight()))
    && (!stopping && |workers| < WAIT_COUNT_RANGE ==> NoHandleWaits(queue, workers))
    && (toldAll ==> stopping && Sum(workers, SleepWeight()) == 0)
  }

  /** A waiting worker that takes a handle was one of the notified, or woke for no reason. */
  lemma TakingKeepsLaw<H>(counter: nat, queue: seq<Queued<H>>, workers: seq<Worker<H>>, toldAll: bool, w: nat, k: nat)
    requires k < |queue| && w < |workers| && (workers[w].Notified? || workers[w].Sleeping?)
    requires WaitLaw(counter, queue, workers, false, toldAll)
    ensures WaitLaw((counter - 1) % WAIT_COUNT_RANGE, queue[..k] + queue[k + 1..], workers[w := Resuming(queue[k].handle)], false, toldAll)
  {
    WorkerChanges(workers, w, Resuming(queue[k].handle));
    SumMember(workers, w, NoticeWeight());
    SumMember(workers, w, WaitWeight());
    OneLess(counter, Sum(workers, WaitWeight()));
    hide Counts, Sum;
  }

  lemma GoingKeepsLaw<H>(counter: nat, queue: seq<Queued<H>>, workers: seq<Worker<H>>, toldAll: bool, w: nat)
    requires w < |workers| && (workers[w].Notified? || workers[w].Sleeping?)
    requires WaitLaw(counter, queue, workers, true, toldAll)
    ensures WaitLaw((counter - 1) % WAIT_COUNT_RANGE, queue, workers[w := Gone], true, toldAll)
  {
    WorkerChanges(workers, w, Gone);
    SumMember(workers, w, SleepWeight());
    SumMember(workers, w, WaitWeight());
    OneLess(counter, Sum(workers, WaitWeight()));
    hide Counts, Sum;
  }

  /** A push that notifies when the count is above zero, `workers1` being what the notification left. */
  lemma PushKeepsLaw<H>(counter: nat, queue: seq<Queued<H>>, workers: seq<Worker<H>>, stopping: bool, toldAll: bool,
                        h: Queued<H>, workers1: seq<Worker<H>>)
    requires WaitLaw(counter, queue, workers, stopping, toldAll) && |workers1| == |workers|
    requires Sum(workers1, WaitWeight()) == Sum(workers, WaitWeight())
    requires if counter > 0 && Sum(workers, SleepWeight()) > 0 then
               Sum(workers1, SleepWeight()) == Sum(workers, SleepWeight()) - 1 && Sum(workers1, NoticeWeight()) == Sum(workers, NoticeWeight()) + 1
             else workers1 == workers
    ensures WaitLaw(counter, queue + [h], workers1, stopping, toldAll)
  {
    WaitersAreBoth(workers);
  }

  class CoExecutor<H(==)> {
    var queue: seq<Queued<H>>
    var waitThreadNum: nat             // 16 bits
    var stopping: bool
    var workers: seq<Worker<H>>
    ghost var pushed: multiset<H>
    ghost var resumed: multiset<H>
    ghost var toldAll: bool            // notify_all of stop has run

    ghost predicate Valid()
      reads this
    {
      && WaitLaw(waitThreadNum, queue, workers, stopping, toldAll)
      && pushed == Handles(queue) + resumed
    }

    /** start, with at least one thread. */
    constructor (threadNum: int)
      ensures Valid() && queue == [] && !stopping && !toldAll && pushed == resumed == multiset{}
      ensures workers == seq(if threadNum < 1 then 1 else threadNum, _ => Outside)
    {
      queue, waitThreadNum, stopping := [], 0, false;
      pushed, resumed, toldAll := multiset{}, multiset{}, false;
      workers := seq(if threadNum < 1 then 1 else threadNum, _ => Outside);
      new;
      SumZero(workers, WaitWeight());
      SumZero(workers, SleepWeight());
    }

    /** resume_coroutine: the handle is queued, and one sleeping worker, if the count says there is any
        waiting, is notified. */
    method ResumeCoroutine(handle: H, priority: Priority)
      requires Valid()
      modifies this`queue, this`workers, this`pushed
      ensures Valid() && queue == old(queue) + [Queued(handle, priority)] && pushed == old(pushed) + multiset{handle}
      ensures workers == old(workers) ||
              exists w | 0 <= w < |old(workers)| :: old(workers)[w].Sleeping? && workers == old(workers)[w := Notified]
      ensures waitThreadNum > 0 && Sum(old(workers), SleepWeight()) > 0 ==> workers != old(workers)
      ensures waitThreadNum == 0 ==> workers == old(workers)
    {
      hide Sum, WaitLaw;
      queue := queue + [Queued(handle, priority)];
      pushed := pushed + multiset{handle};
      assert queue[..|queue| - 1] == old(queue);
      if waitThreadNum > 0 {
        NotifyOne();
      }
      PushKeepsLaw(waitThreadNum, old(queue), old(workers), stopping, toldAll, Queued(handle, priority), workers);
    }

    /** notify_one: some sleeping worker, if there is one. */
    method NotifyOne()
      modifies this`workers
      ensures Sum(old(workers), SleepWeight()) == 0 ==> workers == old(workers)
      ensures Sum(old(workers), SleepWeight()) > 0 ==>
                && (exists w | 0 <= w < |old(workers)| :: old(workers)[w].Sleeping? && workers == old(workers)[w := Notified])
                && Sum(workers, SleepWeight()) == Sum(old(workers), SleepWeight()) - 1
                && Sum(workers, NoticeWeight()) == Sum(old(workers), NoticeWeight()) + 1
      ensures Sum(workers, WaitWeight()) == Sum(old(workers), WaitWeight())
    {
      SumZero(workers, SleepWeight());
      if exists w | 0 <= w < |workers| :: workers[w].Sleeping? {
        var w :| 0 <= w < |workers| && workers[w].Sleeping?;
        WorkerChanges(workers, w, Notified);
        SumMember(workers, w, SleepWeight());
        workers := workers[w := Notified];
      }
    }

    /** What a worker does that has found work, or the stop flag: it has left the wait for good, or taken a
        handle of the highest queued priority. */
    ghost predicate Left(w: nat, queue0: seq<Queued<H>>, workers0: seq<Worker<H>>, resumed0: multiset<H>)
      requires w < |workers0|
      reads this
    {
      if stopping then queue == queue0 && workers == workers0[w := Gone] && resumed == resumed0
      else exists k | 0 <= k < |queue0| :: IsTop(queue0, k) && Took(w, k, queue0, workers0, resumed0)
    }

    ghost predicate Took(w: nat, k: nat, queue0: seq<Queued<H>>, workers0: seq<Worker<H>>, resumed0: multiset<H>)
      requires w < |workers0| && k < |queue0|
      reads this
    {
      && queue == queue0[..k] + queue0[k + 1..]
      && workers == workers0[w := Resuming(queue0[k].handle)]
      && resumed == resumed0 + multiset{queue0[k].handle}
    }

    /** A worker that has the mutex again, after a notification or for no reason, tests the condition. */
    method Recheck(w: nat)
      requires Valid() && w < |workers| && (workers[w].Notified? || workers[w].Sleeping?)
      modifies this`queue, this`workers, this`waitThreadNum, this`resumed
      ensures Valid() && pushed == old(pushed)
      ensures old(queue) == [] && !stopping ==> workers == old(workers)[w := Sleeping] && queue == [] && resumed == old(resumed)
      ensures old(queue) != [] || stopping ==> Left(w, old(queue), old(workers), old(resumed))
    {
      if queue == [] && !stopping {
        WorkerChanges(workers, w, Sleeping);
        workers := workers[w := Sleeping];
      } else {
        Leave(w);
      }
    }

    /** top and pop. */
    method Pop() returns (handle: H, ghost k: nat)
      requires queue != []
      modifies this`queue
      ensures IsTop(old(queue), k) && handle == old(queue)[k].handle && queue == old(queue)[..k] + old(queue)[k + 1..]
      ensures Handles(old(queue)) == Handles(queue) + multiset{handle}
    {
      ghost var top := TopExists(queue);
      var i :| 0 <= i < |queue| && IsTop(queue, i);
      HandlesWithout(queue, i);
      handle, k := queue[i].handle, i;
      queue := queue[..i] + queue[i + 1..];
    }

    /** The wait is over: one waiting thread less, and a handle to resume unless it is time to stop. */
    method Leave(w: nat)
      requires Valid() && w < |workers| && (workers[w].Notified? || workers[w].Sleeping?) && (queue != [] || stopping)
      modifies this`queue, this`workers, this`waitThreadNum, this`resumed
      ensures Valid() && pushed == old(pushed) && Left(w, old(queue), old(workers), old(resumed))
    {
      hide WaitLaw, IsTop, Handles, Sum;
      ghost var counter := waitThreadNum;
      waitThreadNum := (waitThreadNum - 1) % WAIT_COUNT_RANGE;
      if stopping {
        GoingKeepsLaw(counter, queue, workers, toldAll, w);
        workers := workers[w := Gone];
      } else {
        var handle, k := Pop();
        TakingKeepsLaw(counter, old(queue), workers, toldAll, w, k);
        workers := workers[w := Resuming(handle)];
        resumed := resumed + multiset{handle};
        assert Took(w, k, old(queue), old(workers), old(resumed));
      }
    }

    /** A worker comes round to the mutex, counts itself as waiting, and waits unless there is work. */
    method EnterWait(w: nat)
      requires Valid() && w < |workers| && workers[w] == Outside
      modifies this`queue, this`workers, this`waitThreadNum, this`resumed
      ensures Valid() && pushed == old(pushed)
      ensures old(queue) == [] && !stopping ==> workers == old(workers)[w := Sleeping] && queue == [] && resumed == old(resumed)
      ensures old(queue) != [] || stopping ==> Left(w, old(queue), old(workers), old(resumed))
    {
      hide WaitLaw, Handles, Sum;
      Counted(w);
      ghost var queue0 := queue;
      Recheck(w);
      if !stopping && queue0 != [] {
        var k :| 0 <= k < |queue0| && IsTop(queue0, k) && Took(w, k, queue0, old(workers)[w := Notified], old(resumed));
        assert Took(w, k, queue0, old(workers), old(resumed));
      }
    }

    /** ++wait_thread_num: the worker holds the mutex and is about to test the condition. */
    method Counted(w: nat)
      requires Valid() && w < |workers| && workers[w] == Outside
      modifies this`workers, this`waitThreadNum
      ensures Valid() && workers == old(workers)[w := Notified]
    {
      OneMore(waitThreadNum, Sum(workers, WaitWeight()));
      waitThreadNum := (waitThreadNum + 1) % WAIT_COUNT_RANGE;
      WorkerChanges(workers, w, Notified);
      workers := workers[w := Notified];
    }

    /** The coroutine has run to its next suspension. */
    method Resumed(w: nat)
      requires Valid() && w < |workers| && workers[w].Resuming?
      modifies this`workers
      ensures Valid() && workers == old(workers)[w := Outside]
    {
      WorkerChanges(workers, w, Outside);
      workers := workers[w := Outside];
    }

    /** stop, under the lock. */
    method SetStop()
      requires Valid()
      modifies this`stopping
      ensures Valid() && stopping
    {
      stopping := true;
    }

    /** stop, after the lock: every sleeping worker is notified. */
    method NotifyAll()
      requires Valid() && stopping
      modifies this`workers, this`toldAll
      ensures Valid() && toldAll
      ensures |workers| == |old(workers)| && forall i | 0 <= i < |workers| :: workers[i] == Woken(old(workers)[i])
    {
      var workers0 := workers;
      workers := seq(|workers0|, i requires 0 <= i < |workers0| => Woken(workers0[i]));
      toldAll := true;
      SumZero(workers, SleepWeight());
      SameWeights(workers0, workers);
    }

    /** Before stop, with fewer workers than the count can hold: if every worker is asleep there is no handle
        queued, and a queued handle with a worker asleep has a notified worker on its way. */
    lemma NothingStranded()
      requires Valid() && !stopping && |workers| < WAIT_COUNT_RANGE && queue != []
      requires exists w :: 0 <= w < |workers| && workers[w].Sleeping?
      ensures exists w :: 0 <= w < |workers| && workers[w].Notified?
      ensures |queue| <= Sum(workers, NoticeWeight())
    {
      SumZero(workers, SleepWeight());
      SumZero(workers, NoticeWeight());
    }

    /** With fewer workers than the count can hold the test before the notification is right: the count is above
        zero exactly if some worker is waiting. */
    lemma TestIsRight()
      requires Valid() && |workers| < WAIT_COUNT_RANGE
      ensures waitThreadNum > 0 <==> exists w :: 0 <= w < |workers| && (workers[w].Sleeping? || workers[w].Notified?)
    {
      WaitersAreBoth(workers);
      SumZero(workers, WaitWeight());
    }

    /** After stop has notified everyone no worker sleeps again: each that comes to the mutex leaves. */
    lemma StoppedForGood(w: nat)
      requires Valid() && toldAll && w < |workers|
      ensures !workers[w].Sleeping?
    {
      SumZero(workers, SleepWeight());
    }
  }

  /** Whether the 16-bit count tells apart nobody waiting and somebody waiting, whatever the workers do. */
  ghost predicate CountTells(threadNum: nat) {
    forall waiting: nat | waiting <= threadNum :: waiting % WAIT_COUNT_RANGE > 0 <==> waiting > 0
  }

  /** It does exactly with fewer than 65536 workers. */
  lemma CountTellsIffFits(threadNum: nat)
    ensures CountTells(threadNum) <==> threadNum < WAIT_COUNT_RANGE
  {
    if threadNum >= WAIT_COUNT_RANGE {
      assert WAIT_COUNT_RANGE % WAIT_COUNT_RANGE == 0;
    }
  }

  lemma {:induction false} FirstWait<H>(workers: seq<Worker<H>>, n: nat)
    requires n <= |workers|
    requires forall w | 0 <= w < |workers| :: workers[w] == if w < n then Sleeping else Outside
    ensures Sum(workers, WaitWeight()) == Sum(workers, SleepWeight()) == n && Sum(workers, NoticeWeight()) == 0
  {
    if workers != [] {
      FirstWait(workers[1..], if n == 0 then 0 else n - 1);
    }
  }

  /** From 65536 workers on it does not: with that many asleep the count reads zero, whatever number of others
      there is, and a handle that is pushed then wakes nobody and has no notified worker to take it. */
  method StrandedByWrap<H(==)>(threadNum: nat, handle: H) returns (e: CoExecutor<H>)
    requires threadNum >= WAIT_COUNT_RANGE
    ensures e.Valid() && |e.workers| == threadNum && e.queue == [Queued(handle, 0)] && !e.stopping
    ensures forall w | 0 <= w < threadNum :: e.workers[w] == if w < WAIT_COUNT_RANGE then Sleeping else Outside
    ensures !NoHandleWaits(e.queue, e.workers)
  {
    hide Sum, NoHandleWaits;
    e := new CoExecutor(threadNum);
    var w := 0;
    while w < WAIT_COUNT_RANGE
      invariant w <= WAIT_COUNT_RANGE && |e.workers| == threadNum && e.Valid() && fresh(e) && e.queue == []
      invariant !e.stopping
      invariant forall u | 0 <= u < threadNum :: e.workers[u] == if u < w then Sleeping else Outside
    {
      e.EnterWait(w);
      w := w + 1;
    }
    FirstWait(e.workers, WAIT_COUNT_RANGE);
    e.ResumeCoroutine(handle, 0);
    Stranded(e.queue, e.workers);
  }

  lemma Stranded<H>(queue: seq<Queued<H>>, workers: seq<Worker<H>>)
    requires queue != [] && Sum(workers, SleepWeight()) > 0 && Sum(workers, NoticeWeight()) == 0
    ensures !NoHandleWaits(queue, workers)
  {}
}
