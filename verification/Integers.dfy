/** Machine integers of the server: unsigned 32-bit truncation and the C++ remainder. */
module Integers {

  const U32_RANGE: nat := 0x1_0000_0000

  /** The value an integer has after conversion to uint32. */
  function U32(x: int): (r: nat)
    ensures r < U32_RANGE
    ensures 0 <= x < U32_RANGE ==> r == x
    ensures 0 <= x ==> r <= x
  {
    x % U32_RANGE
  }

  /** C++ `%`: the remainder takes the sign of the dividend. */
  function Remainder(a: int, b: int): (r: int)
    requires 0 < b
    ensures 0 <= a ==> 0 <= r < b
    ensures a <= 0 ==> -b < r <= 0
  {
    if 0 <= a then a % b else -((-a) % b)
  }

  /** Moving forward by less than what is left of the period adds to the remainder. */
  lemma RemainderStep(a: int, b: int, d: int)
    requires 0 < b && 0 <= a && 0 <= d && a % b + d <= b
    ensures a % b + d < b ==> (a + d) % b == a % b + d
    ensures a % b + d == b ==> (a + d) % b == 0
  {
    var q, r := a / b, a % b;
    assert a == q * b + r;
    if r + d < b {
      Quotient(a + d, b, q, r + d);
    } else {
      assert a + d == (q + 1) * b + 0;
      Quotient(a + d, b, q + 1, 0);
    }
  }

  /** A remainder is never larger than a dividend that is not negative. */
  lemma RemainderAtMost(a: int, b: int)
    requires 0 < b
    ensures Remainder(a, b) <= if 0 <= a then a else 0
  {
    if 0 <= a < b {
      Quotient(a, b, 0, a);
    }
  }

  /** Euclidean division is unique. */
  lemma Quotient(a: int, b: int, q: int, r: int)
    requires 0 < b && a == q * b + r && 0 <= r < b
    ensures a / b == q && a % b == r
  {
    var q', r' := a / b, a % b;
    assert a == q' * b + r';
    assert (q - q') * b == r' - r;
    if q < q' {
      assert (q' - q) * b >= b by { Scale(q' - q, b); }
    } else if q' < q {
      assert (q - q') * b >= b by { Scale(q - q', b); }
    }
  }

  lemma Scale(k: int, b: int)
    requires 1 <= k && 0 < b
    ensures k * b >= b
  {
    assert (k - 1) * b >= 0;
  }
}
