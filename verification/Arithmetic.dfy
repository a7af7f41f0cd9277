/** Facts about products, quotients and remainders by a variable divisor. */
module Arithmetic {
  lemma MulMonotone(b: int, x: int, y: int)
    requires b >= 0 && x <= y
    ensures b * x <= b * y
  {
    assert b * y - b * x == b * (y - x);
  }

  lemma DivUnique(x: int, a: int, q: int, r: int)
    requires a > 0 && x == q * a + r && 0 <= r < a
    ensures x / a == q && x % a == r
  {
    var q', r' := x / a, x % a;
    assert (q - q') * a == r' - r;
    if q > q' {
      MulMonotone(a, 1, q - q');
    } else if q < q' {
      MulMonotone(a, 1, q' - q);
    }
  }

  lemma ModShift(x: int, k: int, a: int)
    requires a > 0
    ensures (x + k * a) % a == x % a
  {
    var q, r := x / a, x % a;
    assert x + k * a == (q + k) * a + r;
    DivUnique(x + k * a, a, q + k, r);
  }

  /** Two numbers with the same remainder are at least the divisor apart. */
  lemma SameResidue(j: int, k: int, n: int)
    requires n > 0 && j % n == k % n && j < k
    ensures j + n <= k
  {
    var q := k / n - j / n;
    assert k - j == q * n;
    if q <= 0 {
      MulMonotone(n, q, 0);
    } else {
      MulMonotone(n, 1, q);
    }
  }

  /** Slots of a ring behind each other wrap around once at most. */
  lemma WrapsOnce(start: int, k: int, size: int)
    requires 0 <= start < size && 0 <= k <= size
    ensures (start + k) % size == if start + k < size then start + k else start + k - size
  {
    if start + k >= size {
      DivUnique(start + k, size, 1, start + k - size);
    } else {
      DivUnique(start + k, size, 0, start + k);
    }
  }
}
