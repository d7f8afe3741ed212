/**
 * `utils::align(value, alignment)` from Utils/Align.h, which is not part of this model.
 * The allocator relies on it meaning "the smallest multiple of `alignment` that is at
 * least `value`"; this module defines it that way and proves that it is.
 */
module Alignment {

  /** Multiplication by a non-negative factor is monotonic. */
  lemma MulMonotonic(x: int, y: int, a: nat)
    requires x <= y
    ensures x * a <= y * a
  {
  }

  /** A multiple of `a` leaves no remainder. */
  lemma MultipleIsAligned(q: nat, a: nat)
    requires a > 0
    ensures (q * a) % a == 0
  {
    var x := q * a;
    var d := q - x / a;
    assert d * a == x % a;
    if d >= 1 {
      MulMonotonic(1, d, a);
    } else if d <= -1 {
      MulMonotonic(d, -1, a);
    }
  }

  /** The only multiple of `a` in `[k * a, k * a + a)` is `k * a`. */
  lemma OnlyMultipleInStep(k: nat, a: nat, c: nat)
    requires a > 0 && c % a == 0
    requires k * a <= c < k * a + a
    ensures c == k * a
  {
    var q := c / a;
    assert c == q * a;
    if q < k {
      MulMonotonic(q, k - 1, a);
    } else if q > k {
      MulMonotonic(k + 1, q, a);
    }
  }

  /** The sum of two multiples of `a` is a multiple of `a`. */
  lemma SumOfAligned(x: nat, y: nat, a: nat)
    requires a > 0 && x % a == 0 && y % a == 0
    ensures (x + y) % a == 0
  {
    assert x == (x / a) * a && y == (y / a) * a;
    assert x + y == (x / a + y / a) * a;
    MultipleIsAligned(x / a + y / a, a);
  }

  /** `utils::align`: `value` rounded up to the next multiple of `alignment`. */
  function Align(value: nat, alignment: nat): (r: nat)
    requires alignment > 0
    ensures r % alignment == 0
    ensures value <= r < value + alignment
  {
    var rem := value % alignment;
    if rem == 0 then value
    else
      MultipleIsAligned(value / alignment + 1, alignment);
      value + (alignment - rem)
  }

  /** No multiple of `alignment` at least `value` lies below `Align(value, alignment)`. */
  lemma AlignIsLeast(value: nat, alignment: nat, m: nat)
    requires alignment > 0
    requires m % alignment == 0 && value <= m
    ensures Align(value, alignment) <= m
  {
    var r := Align(value, alignment);
    if m < r {
      var k := value / alignment;
      assert value == k * alignment + value % alignment;
      // m is a multiple of `alignment` in [k * alignment, k * alignment + alignment)
      OnlyMultipleInStep(k, alignment, m);
    }
  }
}
