/** Remainders, which the solver does not find by itself. */
module Arith {

  /** The remainder is determined by any division with a remainder in range. */
  lemma ModUnique(x: int, b: int, q: int, r: int)
    requires x == q * b + r && 0 <= r < b
    ensures x % b == r
  {
    var d := x / b - q;
    assert x == (x / b) * b + x % b;
    assert d * b == r - x % b;
    if d > 0 { assert false; }
    if d < 0 { assert false; }
  }

  /** Euclidean remainder of a negative number. */
  lemma NegRem(a: int, b: int)
    requires a >= 0 && b > 0
    ensures (-a) % b == if a % b == 0 then 0 else b - a % b
  {
    var q := a / b;
    assert a == q * b + a % b;
    if a % b == 0 {
      ModUnique(-a, b, -q, 0);
    } else {
      assert -a == (-q - 1) * b + (b - a % b);
      ModUnique(-a, b, -q - 1, b - a % b);
    }
  }

  /** A remainder may be taken early. */
  lemma ModChain(i: int, m: int, n: int, len: int)
    requires len > 0
    ensures ((i - n) % len - m) % len == (i - (m + n)) % len
  {
    var j := (i - n) % len;
    var a, b := (i - n) / len, (j - m) / len;
    assert i - n == a * len + j && j - m == b * len + (j - m) % len;
    assert i - (m + n) == (a + b) * len + (j - m) % len;
    ModUnique(i - (m + n), len, a + b, (j - m) % len);
  }
}
