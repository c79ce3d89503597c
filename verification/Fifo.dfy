/** The plain sequence that a producer's sub-queue is meant to be, and what any mix of operations on it does. */
module Fifo {
  datatype Op<T> = Put(x: T) | PutBulk(items: seq<T>) | Take | TakeBulk(max: nat)

  /** An enqueue says whether it stored; a dequeue what it got. */
  datatype Result<T> = Stored(ok: bool) | Got(items: seq<T>)

  function Smaller(a: nat, b: nat): nat { if a < b then a else b }

  /** Appending at the back, removing from the front. */
  function After<T>(before: seq<T>, op: Op<T>, result: Result<T>): seq<T> {
    match op
    case Put(x) => if result.Stored? && result.ok then before + [x] else before
    case PutBulk(items) => if result.Stored? && result.ok then before + items else before
    case Take => before[Smaller(1, |before|)..]
    case TakeBulk(max) => before[Smaller(max, |before|)..]
  }

  /** An enqueue may fail; a dequeue gets the first elements, as many as are asked for and there. */
  predicate Fits<T(==)>(before: seq<T>, op: Op<T>, result: Result<T>) {
    match op
    case Put(_) => result.Stored?
    case PutBulk(_) => result.Stored?
    case Take => result == Got(before[..Smaller(1, |before|)])
    case TakeBulk(max) => result == Got(before[..Smaller(max, |before|)])
  }

  function Replay<T>(before: seq<T>, ops: seq<Op<T>>, results: seq<Result<T>>): seq<T>
    requires |results| == |ops|
  {
    if ops == [] then before else
      var n := |ops| - 1;
      After(Replay(before, ops[..n], results[..n]), ops[n], results[n])
  }

  /** Every result is the plain sequence's. */
  predicate Explains<T(==)>(before: seq<T>, ops: seq<Op<T>>, results: seq<Result<T>>) {
    |results| == |ops| &&
    (ops == [] ||
     var n := |ops| - 1;
     Explains(before, ops[..n], results[..n]) && Fits(Replay(before, ops[..n], results[..n]), ops[n], results[n]))
  }

  function Accepted<T>(op: Op<T>, result: Result<T>): seq<T> {
    if result.Got? || !result.ok then [] else match op
    case Put(x) => [x]
    case PutBulk(items) => items
    case _ => []
  }

  function AllAccepted<T>(ops: seq<Op<T>>, results: seq<Result<T>>): seq<T>
    requires |results| == |ops|
  {
    if ops == [] then [] else
      var n := |ops| - 1;
      AllAccepted(ops[..n], results[..n]) + Accepted(ops[n], results[n])
  }

  function AllRemoved<T>(results: seq<Result<T>>): seq<T> {
    if results == [] then [] else
      var n := |results| - 1;
      AllRemoved(results[..n]) + if results[n].Got? then results[n].items else []
  }

  /** First in, first out: everything taken out, followed by what is left, is what was there and what was
      accepted, in that order. */
  lemma {:induction false} FirstInFirstOut<T>(before: seq<T>, ops: seq<Op<T>>, results: seq<Result<T>>)
    requires Explains(before, ops, results)
    ensures before + AllAccepted(ops, results) == AllRemoved(results) + Replay(before, ops, results)
  {
    if ops != [] {
      var n := |ops| - 1;
      FirstInFirstOut(before, ops[..n], results[..n]);
      OneOperation(Replay(before, ops[..n], results[..n]), ops[n], results[n]);
      Regroup(before, AllAccepted(ops[..n], results[..n]), Accepted(ops[n], results[n]), AllRemoved(results[..n]),
              Replay(before, ops[..n], results[..n]), if results[n].Got? then results[n].items else [], After(Replay(before, ops[..n], results[..n]), ops[n], results[n]));
      hide Accepted, After, Fits;
    }
  }

  lemma Regroup<T>(a: seq<T>, b: seq<T>, c: seq<T>, d: seq<T>, e: seq<T>, f: seq<T>, g: seq<T>)
    requires a + b == d + e && e + c == f + g
    ensures a + (b + c) == (d + f) + g
  {
    assert a + (b + c) == (a + b) + c;
    assert (d + e) + c == d + (e + c);
    assert d + (f + g) == (d + f) + g;
  }

  lemma OneOperation<T>(before: seq<T>, op: Op<T>, result: Result<T>)
    requires Fits(before, op, result)
    ensures before + Accepted(op, result) == (if result.Got? then result.items else []) + After(before, op, result)
  {}

  /** One operation more at the end. */
  lemma Extends<T>(before: seq<T>, ops: seq<Op<T>>, i: nat, results: seq<Result<T>>, result: Result<T>)
    requires i < |ops| && Explains(before, ops[..i], results) && Fits(Replay(before, ops[..i], results), ops[i], result)
    ensures Explains(before, ops[..i + 1], results + [result])
    ensures Replay(before, ops[..i + 1], results + [result]) == After(Replay(before, ops[..i], results), ops[i], result)
  {
    assert ops[..i + 1][..i] == ops[..i] && (results + [result])[..i] == results;
  }
}
