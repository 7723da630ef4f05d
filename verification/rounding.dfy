/**
 * Integer forms of the `Math.round` and `Math.ceil` expressions the pages compute:
 * `Math.round((part / total) * 100)` and `Math.ceil(n / d)`.
 */
module Rounding {

  /** `Math.round(num / den)` for a positive denominator: the nearest integer, halves rounded up. */
  function RoundDiv(num: int, den: int): (r: int)
    requires den > 0
    ensures 2 * r * den <= 2 * num + den < 2 * (r + 1) * den
  {
    var q := (2 * num + den) / (2 * den);
    assert (2 * num + den) == q * (2 * den) + (2 * num + den) % (2 * den);
    q
  }

  /** `Math.ceil(num / den)` for a positive denominator: the least integer not below the quotient. */
  function CeilDiv(num: int, den: int): (r: int)
    requires den > 0
    ensures den * (r - 1) < num <= den * r
  {
    var q := (num + den - 1) / den;
    assert num + den - 1 == q * den + (num + den - 1) % den;
    q
  }

  /** `total > 0 ? Math.round((part / total) * 100) : 0`. */
  function Percentage(part: int, total: int): (r: int)
    ensures total <= 0 ==> r == 0
    ensures total > 0 ==> 2 * r * total <= 200 * part + total < 2 * (r + 1) * total
    ensures total > 0 && 0 <= part <= total ==> 0 <= r <= 100
    ensures total > 0 && part == 0 ==> r == 0
    ensures total > 0 && part == total ==> r == 100
    ensures total > 0 && part > 0 ==> r >= 0
  {
    if total > 0 then
      var r := RoundDiv(100 * part, total);
      PercentageBounds(part, total, r);
      r
    else 0
  }

  lemma PercentageBounds(part: int, total: int, r: int)
    requires total > 0
    requires 2 * r * total <= 200 * part + total < 2 * (r + 1) * total
    ensures 0 <= part <= total ==> 0 <= r <= 100
    ensures part == 0 ==> r == 0
    ensures part == total ==> r == 100
    ensures part > 0 ==> r >= 0
  {
    // Each bound compares two multiples of `total`, so it compares their factors.
    assert 2 * r * total == (2 * r) * total && 2 * (r + 1) * total == (2 * r + 2) * total;
    if part >= 0 {
      CancelLess(0, 2 * r + 2, total);
    }
    if part <= total {
      assert (2 * r) * total <= 201 * total;
      CancelLess(2 * r, 201, total);
    }
    if part == 0 {
      assert (2 * r) * total <= 1 * total;
      CancelLess(2 * r, 1, total);
    }
    if part == total {
      assert 201 * total < (2 * r + 2) * total;
      CancelLess(201, 2 * r + 2, total);
    }
  }

  /** A strict comparison of two multiples of a positive number compares the factors. */
  lemma CancelLess(a: int, b: int, t: int)
    requires t > 0
    ensures a * t < b * t <==> a < b
    ensures a * t <= b * t <==> a <= b
  {
  }
}
