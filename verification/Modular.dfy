/** Remainders by a variable divisor, which the solver needs help with. */
module Modular {
  lemma ModOfMultiple(x: int, size: nat, k: nat)
    requires size > 0 && k > 0
    ensures (x % (k * size)) % size == x % size
  {
    var m := k * size;
    var q := x / m;
    assert x == m * q + x % m;
    assert m * q == size * (k * q) by { Associate(k, size, q); }
    SameRemainder(x % m, k * q, size);
  }

  lemma Associate(k: int, size: int, q: int)
    ensures (k * size) * q == size * (k * q)
  {
    assert (k * size) * q == k * (size * q) == k * (q * size) == (k * q) * size;
  }

  lemma SameRemainder(x: int, k: int, size: nat)
    requires size > 0
    ensures (size * k + x) % size == x % size
  {
    var q := x / size;
    var r := x % size;
    assert size * k + x == size * (k + q) + r;
    RemainderIsUnique(size * k + x, k + q, r, size);
  }

  lemma AtLeastOnce(size: int, d: int)
    requires size >= 0
    ensures d >= 1 ==> size * d >= size
    ensures d <= -1 ==> size * d <= -size
  {
    if d <= -1 {
      assert size * -d >= size;
      assert size * -d == -(size * d);
    }
  }

  lemma RemainderIsUnique(x: int, q: int, r: int, size: nat)
    requires size > 0 && 0 <= r < size && x == size * q + r
    ensures x % size == r
  {
    var d := q - x / size;
    assert size * d == size * q - size * (x / size);
    AtLeastOnce(size, d);
  }

  /** Fewer than `size` steps apart, two numbers have different remainders. */
  lemma DistinctRemainders(x: int, i: int, j: int, size: nat)
    requires size > 0 && i < j < i + size
    ensures (x + i) % size != (x + j) % size
  {
    if (x + i) % size == (x + j) % size {
      var d := (x + j) / size - (x + i) / size;
      assert size * d == size * ((x + j) / size) - size * ((x + i) / size);
      assert j - i == size * d;
      AtLeastOnce(size, d);
    }
  }
}
