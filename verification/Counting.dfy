/** Sums over the threads of a step machine.  Every machine in this project keeps
    one program counter per thread in a sequence, so "how many threads are at ..."
    and "how much weight do the threads carry" are sums over that sequence. */
module Counting {

  function Sum<A>(s: seq<A>, weight: A -> nat): nat {
    if s == [] then 0 else weight(s[0]) + Sum(s[1..], weight)
  }

  /** One thread moves: the sum changes by that thread's weight only. */
  lemma {:induction false} SumUpdate<A>(s: seq<A>, i: nat, a: A, weight: A -> nat)
    requires i < |s|
    ensures Sum(s[i := a], weight) + weight(s[i]) == Sum(s, weight) + weight(a)
  {
    if i == 0 {
      assert s[0 := a][1..] == s[1..];
    } else {
      assert s[i := a][1..] == s[1..][i - 1 := a];
      SumUpdate(s[1..], i - 1, a, weight);
    }
  }

  lemma {:induction false} SumMember<A>(s: seq<A>, i: nat, weight: A -> nat)
    requires i < |s|
    ensures weight(s[i]) <= Sum(s, weight)
  {
    if i > 0 {
      SumMember(s[1..], i - 1, weight);
    }
  }

  lemma {:induction false} SumPair<A>(s: seq<A>, i: nat, j: nat, weight: A -> nat)
    requires i < j < |s|
    ensures weight(s[i]) + weight(s[j]) <= Sum(s, weight)
  {
    if i == 0 {
      SumMember(s[1..], j - 1, weight);
    } else {
      SumPair(s[1..], i - 1, j - 1, weight);
    }
  }

  lemma {:induction false} SumZero<A>(s: seq<A>, weight: A -> nat)
    ensures Sum(s, weight) == 0 <==> forall i | 0 <= i < |s| :: weight(s[i]) == 0
  {
    if s != [] {
      SumZero(s[1..], weight);
      assert forall i | 1 <= i < |s| :: s[i] == s[1..][i - 1];
    }
  }

  /** A sum of zeros and ones is a number of threads. */
  lemma {:induction false} SumOfFlags<A>(s: seq<A>, weight: A -> nat)
    requires forall i | 0 <= i < |s| :: weight(s[i]) <= 1
    ensures Sum(s, weight) <= |s|
  {
    if s != [] {
      SumOfFlags(s[1..], weight);
    }
  }

  lemma {:induction false} SumConcat<A>(s: seq<A>, t: seq<A>, weight: A -> nat)
    ensures Sum(s + t, weight) == Sum(s, weight) + Sum(t, weight)
  {
    if s == [] {
      assert s + t == t;
    } else {
      assert (s + t)[1..] == s[1..] + t;
      SumConcat(s[1..], t, weight);
    }
  }

  lemma {:induction false} SumMonotone<A>(s: seq<A>, t: seq<A>, weight: A -> nat)
    requires |s| == |t| && forall i | 0 <= i < |s| :: weight(s[i]) <= weight(t[i])
    ensures Sum(s, weight) <= Sum(t, weight)
  {
    if s != [] {
      SumMonotone(s[1..], t[1..], weight);
    }
  }

  lemma {:induction false} SumUniform<A>(s: seq<A>, k: nat, weight: A -> nat)
    requires forall i | 0 <= i < |s| :: weight(s[i]) == k
    ensures Sum(s, weight) == |s| * k
  {
    if s != [] {
      SumUniform(s[1..], k, weight);
    }
  }
}
