/** What the machines that join the dequeue protocol with the lookups of a kind of producer have in common: how
    the counters go with what consumers have claimed, and how what was enqueued becomes what was delivered.

    Of a lookup machine only a view matters here: head, tail, and for each consumer the rest of its claim. */
module Delivery {
  import opened Counting
  import opened Options
  import opened Wraparound
  import D = DequeueProtocol

  /** What is left to be read of a claim. */
  datatype Span = Span(next: nat, stop: nat)

  datatype View = View(head: nat, tail: nat, spans: seq<Option<Span>>)

  // ---- Steps of the lookups, as seen here ----------------------------------------------------

  ghost predicate Claims(v: View, v': View, t: nat, k: nat) {
    && t < |v.spans| && v.spans[t] == None
    && v' == View(v.head + k, v.tail, v.spans[t := Some(Span(v.head, v.head + k))])
  }

  ghost predicate Reads(v: View, v': View, t: nat) {
    && t < |v.spans| && v.spans[t].Some? && v.spans[t].value.next < v.spans[t].value.stop
    && v' == v.(spans := v.spans[t := Some(Span(v.spans[t].value.next + 1, v.spans[t].value.stop))])
  }

  /** Anything else a consumer does, the last of which ends the call. */
  ghost predicate Looks(v: View, v': View, t: nat) {
    && t < |v.spans| && v.spans[t].Some?
    && (v' == v || (v.spans[t].value.next == v.spans[t].value.stop && v' == v.(spans := v.spans[t := None])))
  }

  ghost predicate Publishes(v: View, v': View, k: nat) { v' == v.(tail := v.tail + k) }

  // ---- The counters ----------------------------------------------------------------------------

  /** The span is the rest of one claim of the thread's own. */
  ghost predicate OwnClaim(claims: seq<D.Claim>, t: nat, x: Span) {
    exists k | 0 <= k < |claims| :: claims[k].thread == t && IsRestOf(x, claims[k])
  }

  predicate IsRestOf(x: Span, c: D.Claim) { c.first <= x.next <= x.stop == c.first + c.count }

  ghost predicate ThreadLaw(d: D.State, v: View, t: nat)
    requires t < |d.pcs| && t < |v.spans|
  {
    && (d.pcs[t] != D.Idle ==> v.spans[t] == None)
    && D.SeenLaw(d, d.pcs[t])
    && (v.spans[t].Some? ==> OwnClaim(d.claims, t, v.spans[t].value))
  }

  /** Counters and lookups are at the same head and tail, and each thread is in one of them at a time. */
  ghost predicate Together(d: D.State, v: View) {
    && d.head == v.head && d.tail == v.tail && |d.pcs| == |v.spans|
    && forall t | 0 <= t < |d.pcs| :: ThreadLaw(d, v, t)
  }

  ghost predicate AllAsk(d: D.State) { forall t | 0 <= t < |d.pcs| :: D.AsksSome(d.pcs[t]) }

  lemma ClaimKeeps(d: D.State, v: View, v': View, t: nat)
    requires Together(d, v) && t < |d.pcs| && d.pcs[t].ClaimHead? && Claims(v, v', t, d.pcs[t].actual)
    ensures Together(D.Step(d, t), v')
  {
    var d', k := D.Step(d, t), d.pcs[t].actual;
    assert ThreadLaw(d, v, t);
    assert d'.claims[|d.claims|] == D.Claim(t, d.head, k) && d'.claims[..|d.claims|] == d.claims;
    assert IsRestOf(Span(v.head, v.head + k), d'.claims[|d.claims|]);
    forall u | 0 <= u < |d'.pcs| && u != t ensures ThreadLaw(d', v', u) {
      assert ThreadLaw(d, v, u);
      if v.spans[u].Some? {
        ClaimsStay(d.claims, d'.claims, u, v.spans[u].value);
      }
    }
  }

  lemma ClaimsStay(claims: seq<D.Claim>, claims': seq<D.Claim>, t: nat, x: Span)
    requires OwnClaim(claims, t, x) && |claims| <= |claims'| && claims'[..|claims|] == claims
    ensures OwnClaim(claims', t, x)
  {
    var k :| 0 <= k < |claims| && claims[k].thread == t && IsRestOf(x, claims[k]);
    assert claims'[k] == claims'[..|claims|][k];
  }

  /** An operation on the counters that claims nothing. */
  lemma CountKeeps(d: D.State, v: View, t: nat, slots: seq<D.Slot>, high: nat)
    requires Together(d, v) && t < |d.pcs| && d.pcs[t] != D.Idle && !d.pcs[t].ClaimHead? && D.Inv(d, slots, high)
    ensures Together(D.Step(d, t), v)
  {
    var d' := D.Step(d, t);
    assert ThreadLaw(d, v, t);
    D.StepMoves(d, t);
    D.StepSees(d, t, slots, high);
    hide D.Inv, D.Step;
    forall u | 0 <= u < |d'.pcs| ensures ThreadLaw(d', v, u) {
      assert ThreadLaw(d, v, u);
    }
  }

  lemma StepKeepsAsking(d: D.State, t: nat)
    requires AllAsk(d) && t < |d.pcs|
    ensures AllAsk(D.Step(d, t))
  {
    D.StepAsks(d, t);
    D.StepMoves(d, t);
  }

  lemma ReadKeeps(d: D.State, v: View, v': View, t: nat)
    requires Together(d, v) && (Reads(v, v', t) || Looks(v, v', t))
    ensures Together(d, v')
  {
    forall u | 0 <= u < |d.pcs| ensures ThreadLaw(d, v', u) {
      assert ThreadLaw(d, v, u);
      if u == t && Reads(v, v', t) {
        var k :| 0 <= k < |d.claims| && d.claims[k].thread == t && IsRestOf(v.spans[t].value, d.claims[k]);
        assert IsRestOf(v'.spans[t].value, d.claims[k]);
      }
    }
  }

  lemma PublishKeeps(d: D.State, v: View, v': View, k: nat)
    requires Together(d, v) && Publishes(v, v', k)
    ensures Together(D.Apply(d, D.Publish(k)), v')
  {
    var d' := D.Apply(d, D.Publish(k));
    forall u | 0 <= u < |d'.pcs| ensures ThreadLaw(d', v', u) {
      assert ThreadLaw(d, v, u);
    }
  }

  lemma CallKeeps(d: D.State, v: View, t: nat, max: nat)
    requires Together(d, v) && t < |d.pcs| && d.pcs[t] == D.Idle && v.spans[t] == None
    ensures Together(D.Apply(d, D.Call(t, max)), v)
  {
    var d' := D.Apply(d, D.Call(t, max));
    forall u | 0 <= u < |d'.pcs| ensures ThreadLaw(d', v, u) {
      assert ThreadLaw(d, v, u);
    }
  }

  /** What different threads have left of their claims is disjoint. */
  lemma SpansAreApart(d: D.State, v: View, t: nat, u: nat)
    requires Together(d, v) && D.ClaimsLaw(d.claims, d.head) && t < |v.spans| && u < |v.spans| && t != u
    requires v.spans[t].Some? && v.spans[u].Some?
    ensures v.spans[t].value.stop <= v.spans[u].value.next || v.spans[u].value.stop <= v.spans[t].value.next
  {
    assert ThreadLaw(d, v, t) && ThreadLaw(d, v, u);
    D.ClaimsTile(d.claims, d.head, 0);
    var k :| 0 <= k < |d.claims| && d.claims[k].thread == t && IsRestOf(v.spans[t].value, d.claims[k]);
    var l :| 0 <= l < |d.claims| && d.claims[l].thread == u && IsRestOf(v.spans[u].value, d.claims[l]);
    assert k != l;
  }

  // ---- What was enqueued and what was delivered ------------------------------------------------

  predicate Unread(x: Option<Span>, i: nat) { x.Some? && x.value.next <= i < x.value.stop }

  function UnreadWeight(i: nat): Option<Span> -> nat { (x: Option<Span>) => if Unread(x, i) then 1 else 0 }

  /** Every claimed element has been delivered, once and with the value that was enqueued at its index, or is
      still to be read by exactly one consumer. */
  ghost predicate DeliveryLaw<T>(v: View, enqueued: seq<T>, delivered: map<nat, T>) {
    && v.head <= v.tail <= |enqueued|
    && (forall i: nat :: OnceLaw(v, delivered, i))
    && (forall i | i in delivered :: i < v.head && delivered[i] == enqueued[i])
  }

  ghost predicate OnceLaw<T>(v: View, delivered: map<nat, T>, i: nat) {
    Sum(v.spans, UnreadWeight(i)) == if i < v.head && i !in delivered then 1 else 0
  }

  lemma UnreadMoves(spans: seq<Option<Span>>, t: nat, x: Option<Span>, i: nat)
    requires t < |spans|
    ensures Sum(spans[t := x], UnreadWeight(i)) == Sum(spans, UnreadWeight(i)) - UnreadWeight(i)(spans[t]) + UnreadWeight(i)(x)
    ensures UnreadWeight(i)(spans[t]) <= Sum(spans, UnreadWeight(i))
  {
    SumUpdate(spans, t, x, UnreadWeight(i));
    SumMember(spans, t, UnreadWeight(i));
  }

  lemma ClaimKeepsDelivery<T>(v: View, v': View, t: nat, k: nat, enqueued: seq<T>, delivered: map<nat, T>)
    requires DeliveryLaw(v, enqueued, delivered) && Claims(v, v', t, k) && v.head + k <= v.tail
    ensures DeliveryLaw(v', enqueued, delivered)
  {
    forall i: nat ensures OnceLaw(v', delivered, i) {
      assert OnceLaw(v, delivered, i);
      UnreadMoves(v.spans, t, v'.spans[t], i);
    }
  }

  /** A read is the first of its index, and delivers what was enqueued there if that is what it finds. */
  lemma ReadKeepsDelivery<T>(v: View, v': View, t: nat, enqueued: seq<T>, delivered: map<nat, T>)
    requires DeliveryLaw(v, enqueued, delivered) && Reads(v, v', t)
    ensures v.spans[t].value.next !in delivered && v.spans[t].value.next < v.head
    ensures DeliveryLaw(v', enqueued, delivered[v.spans[t].value.next := enqueued[v.spans[t].value.next]])
  {
    var at := v.spans[t].value.next;
    assert OnceLaw(v, delivered, at);
    UnreadMoves(v.spans, t, v'.spans[t], at);
    var delivered' := delivered[at := enqueued[at]];
    forall i: nat ensures OnceLaw(v', delivered', i) {
      assert OnceLaw(v, delivered, i);
      UnreadMoves(v.spans, t, v'.spans[t], i);
    }
  }

  lemma LookKeepsDelivery<T>(v: View, v': View, t: nat, enqueued: seq<T>, delivered: map<nat, T>)
    requires DeliveryLaw(v, enqueued, delivered) && Looks(v, v', t)
    ensures DeliveryLaw(v', enqueued, delivered)
  {
    forall i: nat ensures OnceLaw(v', delivered, i) {
      assert OnceLaw(v, delivered, i);
      UnreadMoves(v.spans, t, None, i);
    }
  }

  lemma PublishKeepsDelivery<T>(v: View, v': View, k: nat, enqueued: seq<T>, delivered: map<nat, T>)
    requires DeliveryLaw(v, enqueued, delivered) && Publishes(v, v', k) && v.tail + k <= |enqueued|
    ensures DeliveryLaw(v', enqueued, delivered)
  {
    forall i: nat ensures OnceLaw(v', delivered, i) {
      assert OnceLaw(v, delivered, i);
    }
  }

  lemma WriteKeepsDelivery<T>(v: View, enqueued: seq<T>, delivered: map<nat, T>, x: T)
    requires DeliveryLaw(v, enqueued, delivered)
    ensures DeliveryLaw(v, enqueued + [x], delivered)
  {}

  /** Once every call has returned, exactly what was claimed has been delivered. */
  lemma AllDelivered<T>(v: View, enqueued: seq<T>, delivered: map<nat, T>, i: nat)
    requires DeliveryLaw(v, enqueued, delivered) && forall t | 0 <= t < |v.spans| :: v.spans[t] == None
    ensures i in delivered <==> i < v.head
    ensures i in delivered ==> delivered[i] == enqueued[i]
  {
    assert OnceLaw(v, delivered, i);
    SumZero(v.spans, UnreadWeight(i));
  }

  // ---- Cells -----------------------------------------------------------------------------------

  type Block = nat

  /** The elements of block numbers from `lo` on that have a block are in its cells. */
  ghost predicate CellsLaw<T>(cells: map<(Block, nat), T>, blocks: map<nat, Block>, lo: nat, enqueued: seq<T>) {
    forall i | lo * BLOCK_SIZE <= i < |enqueued| && i / BLOCK_SIZE in blocks :: HasCell(cells, blocks, enqueued, i)
  }

  ghost predicate HasCell<T>(cells: map<(Block, nat), T>, blocks: map<nat, Block>, enqueued: seq<T>, i: nat) {
    && i < |enqueued| && i / BLOCK_SIZE in blocks
    && (blocks[i / BLOCK_SIZE], i % BLOCK_SIZE) in cells && cells[(blocks[i / BLOCK_SIZE], i % BLOCK_SIZE)] == enqueued[i]
  }

  /** Blocks that leave, and blocks without elements yet, change nothing. */
  lemma CellsStay<T>(cells: map<(Block, nat), T>, blocks: map<nat, Block>, lo: nat, blocks': map<nat, Block>, lo': nat,
                     enqueued: seq<T>)
    requires CellsLaw(cells, blocks, lo, enqueued) && lo <= lo'
    requires forall q | q in blocks' && lo' <= q && q * BLOCK_SIZE < |enqueued| :: q in blocks && blocks[q] == blocks'[q]
    ensures CellsLaw(cells, blocks', lo', enqueued)
  {
    forall i | lo' * BLOCK_SIZE <= i < |enqueued| && i / BLOCK_SIZE in blocks' ensures HasCell(cells, blocks', enqueued, i) {
      InBlock(lo', i);
      assert HasCell(cells, blocks, enqueued, i);
    }
  }

  lemma InBlock(lo: nat, i: nat)
    requires lo * BLOCK_SIZE <= i
    ensures lo <= i / BLOCK_SIZE && i / BLOCK_SIZE * BLOCK_SIZE <= i
  {}

  /** Writing the next element harms no other. */
  lemma WriteKeepsCells<T>(cells: map<(Block, nat), T>, blocks: map<nat, Block>, lo: nat, enqueued: seq<T>, x: T)
    requires CellsLaw(cells, blocks, lo, enqueued) && |enqueued| / BLOCK_SIZE in blocks
    requires forall q | q in blocks && lo <= q < |enqueued| / BLOCK_SIZE :: blocks[q] != blocks[|enqueued| / BLOCK_SIZE]
    ensures CellsLaw(cells[(blocks[|enqueued| / BLOCK_SIZE], |enqueued| % BLOCK_SIZE) := x], blocks, lo, enqueued + [x])
  {
    var n, enqueued' := |enqueued|, enqueued + [x];
    var cells' := cells[(blocks[n / BLOCK_SIZE], n % BLOCK_SIZE) := x];
    forall i | lo * BLOCK_SIZE <= i < |enqueued'| && i / BLOCK_SIZE in blocks ensures HasCell(cells', blocks, enqueued', i) {
      if i < n {
        assert HasCell(cells, blocks, enqueued, i);
        InBlock(lo, i);
        DifferentCells(i, n);
      }
    }
  }

  lemma DifferentCells(i: nat, n: nat)
    requires i < n
    ensures i / BLOCK_SIZE < n / BLOCK_SIZE || (i / BLOCK_SIZE == n / BLOCK_SIZE && i % BLOCK_SIZE != n % BLOCK_SIZE)
  {}
}
