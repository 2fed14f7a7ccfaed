/** Remainders by a variable divisor, for ring buffers. */
module Modulo {

  /** Indices less than a ring apart never share a place. */
  lemma {:induction false} DifferentPlaces(i: nat, j: nat, n: nat)
    requires n > 0 && i < j < i + n
    ensures i % n != j % n
    decreases i
  {
    if i >= n {
      OneTurn(i, n);
      OneTurn(j, n);
      DifferentPlaces(i - n, j - n, n);
    } else if j >= n {
      OneTurn(j, n);
    }
  }

  lemma OneTurn(x: nat, n: nat)
    requires 0 < n <= x
    ensures x % n == (x - n) % n && (x < 2 * n ==> x % n == x - n)
  {
    var q, r := (x - n) / n, (x - n) % n;
    assert x - n == q * n + r;
    assert x == (q + 1) * n + r;
    Remainder(x, n, q + 1, r);
  }

  lemma Remainder(x: nat, n: nat, q: nat, r: nat)
    requires r < n && x == q * n + r
    ensures x % n == r
  {
    var d := x / n - q;
    assert x % n - r == -(d * n) by {
      assert x == (x / n) * n + x % n;
      assert (x / n) * n - q * n == d * n;
    }
    Multiples(d, n);
  }

  lemma Multiples(d: int, n: nat)
    requires n > 0
    ensures (d >= 1 ==> d * n >= n) && (d <= -1 ==> d * n <= -(n as int)) && (d == 0 ==> d * n == 0)
  {
  }
}
