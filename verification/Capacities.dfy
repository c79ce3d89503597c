/** Powers of two, which the sizes of the index rings are. */
module Capacities {
  import opened Modular
  import opened Wraparound

  function Power(e: nat): (p: nat)
    ensures p >= 1
  {
    if e == 0 then 1 else 2 * Power(e - 1)
  }

  lemma TwiceProduct(x: int, y: int)
    ensures 2 * (x * y) == (2 * x) * y
  {}

  lemma {:induction false} PowerOfSum(a: nat, b: nat)
    ensures Power(a + b) == Power(a) * Power(b)
  {
    if a > 0 {
      PowerOfSum(a - 1, b);
      assert Power(a + b) == 2 * Power(a - 1 + b);
      TwiceProduct(Power(a - 1), Power(b));
    }
  }

  lemma LargePowers()
    ensures Power(5) == 32 && Power(58) == 0x400_0000_0000_0000 && Power(64) == INDEX_RANGE
  {
    assert Power(8) == 256;
    PowerOfSum(8, 8);
    PowerOfSum(16, 16);
    PowerOfSum(32, 16);
    PowerOfSum(48, 8);
    PowerOfSum(56, 2);
    PowerOfSum(58, 6);
    assert Power(6) == 64;
  }

  /** A power of two up to the index range divides it, which masking slots relies on. */
  lemma CapacityDividesRange(e: nat)
    requires e <= 64
    ensures Power(e) > 0 && INDEX_RANGE % Power(e) == 0
  {
    LargePowers();
    PowerOfSum(e, 64 - e);
    RemainderIsUnique(INDEX_RANGE, Power(64 - e), 0, Power(e));
  }

  lemma SmallCapacity(e: nat)
    requires e < 58
    ensures 2 * Power(e) <= Power(58)
  {
    PowerOfSum(e + 1, 57 - e);
    AtLeastOnce(Power(e + 1), Power(57 - e));
  }

  lemma LargeCapacity(e: nat)
    requires e >= 58
    ensures Power(e) >= Power(58)
  {
    PowerOfSum(58, e - 58);
    AtLeastOnce(Power(58), Power(e - 58));
  }

  // ---- Doubling as blocks are added --------------------------------------------------

  /** A ring of `initial` slots, doubled whenever it is full, is full when it holds this many. */
  ghost predicate IsFullAt(initial: nat, used: nat) { exists k: nat :: used == initial * Power(k) }

  /** With `used` slots in use, the ring has to grow for the i-th of those to come. */
  ghost predicate GrowsFor(initial: nat, used: nat, i: nat) { IsFullAt(initial, used + i) }

  /** The slots of a ring when one more is needed. */
  function Resized(size: nat, used: nat): nat { if used < size then size else 2 * size }

  /** `size` is what has become of `initial` slots by the time that `used` are needed, and no more than that. */
  ghost predicate GrownTo(initial: nat, size: nat, used: nat) {
    used <= size && exists k: nat :: size == initial * Power(k) && (k == 0 || initial * Power(k - 1) < used)
  }

  lemma NextPower(initial: nat, k: nat)
    ensures initial * Power(k + 1) == 2 * (initial * Power(k))
  {
    var p := Power(k);
    assert Power(k + 1) == 2 * p;
    hide Power;
    assert initial * (2 * p) == 2 * (initial * p);
  }

  lemma {:induction false} PowersRise(initial: nat, a: nat, b: nat)
    requires a <= b
    ensures 0 <= initial * Power(a) <= initial * Power(b)
  {
    if a < b {
      PowersRise(initial, a, b - 1);
      NextPower(initial, b - 1);
    } else {
      Positive(initial, Power(a));
    }
  }

  lemma Positive(x: nat, y: nat)
    ensures x * y >= 0
  {}

  lemma GrownIsFull(initial: nat, size: nat, used: nat)
    requires initial > 0 && GrownTo(initial, size, used)
    ensures used == size <==> IsFullAt(initial, used)
  {
    var k: nat :| size == initial * Power(k) && (k == 0 || initial * Power(k - 1) < used);
    if IsFullAt(initial, used) {
      var m: nat :| used == initial * Power(m);
      if m < k {
        PowersRise(initial, m, k - 1);
      } else {
        PowersRise(initial, k, m);
      }
    }
  }

  lemma GrowsOn(initial: nat, size: nat, used: nat)
    requires initial > 0 && GrownTo(initial, size, used)
    ensures GrownTo(initial, Resized(size, used), used + 1)
  {
    var k: nat :| size == initial * Power(k) && (k == 0 || initial * Power(k - 1) < used);
    NextPower(initial, k);
    PowersRise(initial, 0, k);
    assert initial * Power(0) == initial;
    hide Power;
    if used == size {
      assert 2 * size == initial * Power(k + 1) && initial * Power(k + 1 - 1) < used + 1;
    }
  }

  lemma StartsGrown(size: nat, used: nat)
    requires used <= size
    ensures GrownTo(size, size, used)
  {
    assert size == size * Power(0);
  }
}
