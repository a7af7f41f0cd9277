/** The arithmetic of inverting a hash x -> (a*x + b) mod m by enumeration. */
module BloomArithmetic {
  import opened Arithmetic

  datatype Hash = Hash(a: int, b: int, m: int)

  /** Hash values of vertices are not negative, as indices of the filter cannot be. */
  predicate ValidHash(h: Hash) { h.a > 0 && h.m > 0 && h.a + h.b >= 0 }

  function HashOf(h: Hash, x: int): int
    requires h.m > 0
  {
    (h.a * x + h.b) % h.m
  }

  function CeilDiv(a: int, b: int): int
    requires b > 0
  {
    (a + b - 1) / b
  }

  /** The operators / and % on machine integers: the quotient is cut off towards zero. */
  function TruncDiv(x: int, y: int): int
    requires y > 0
  {
    if x >= 0 then x / y else -((-x) / y)
  }

  function TruncMod(x: int, y: int): int
    requires y > 0
  {
    if x >= 0 then x % y else -((-x) % y)
  }

  /** Quotient and remainder belong together, and the remainder has the sign of the dividend. */
  lemma TruncIs(x: int, y: int)
    requires y > 0
    ensures x == TruncDiv(x, y) * y + TruncMod(x, y)
    ensures -y < TruncMod(x, y) < y && (x >= 0 ==> TruncMod(x, y) >= 0) && (x <= 0 ==> TruncMod(x, y) <= 0)
  {
    if x < 0 {
      assert -x == ((-x) / y) * y + (-x) % y;
    }
  }

  /** The least number of b-sized pieces that cover a. */
  lemma CeilDivCovers(a: int, b: int, k: int)
    requires a >= 0 && b > 0
    ensures a <= b * k <==> CeilDiv(a, b) <= k
  {
    var q := CeilDiv(a, b);
    assert b * q <= a + b - 1 < b * q + b;
    if k < q {
      assert b * k <= b * (q - 1) by { MulMonotone(b, k, q - 1); }
      assert b * (q - 1) == b * q - b;
    } else {
      MulMonotone(b, q, k);
    }
  }

  lemma TruncModShift(x: int, a: int) returns (k: int)
    requires a > 0
    ensures TruncMod(x, a) == x + k * a
  {
    if x >= 0 {
      k := -(x / a);
    } else {
      k := (-x) / a;
    }
  }

  /** The divisibility test of reconstruct0 is a test of the exact numerator. */
  lemma SplitTest(x: int, y: int, a: int)
    requires a > 0
    ensures TruncMod(TruncMod(x, a) + TruncMod(y, a), a) == 0 <==> (x + y) % a == 0
  {
    var k := TruncModShift(x, a);
    var l := TruncModShift(y, a);
    SumShift(x, y, TruncMod(x, a), TruncMod(y, a), k, l, a);
    TruncZero(TruncMod(x, a) + TruncMod(y, a), a);
  }

  lemma SumShift(x: int, y: int, x': int, y': int, k: int, l: int, a: int)
    requires a > 0 && x' == x + k * a && y' == y + l * a
    ensures (x' + y') % a == (x + y) % a
  {
    assert x' + y' == (x + y) + (k + l) * a;
    ModShift(x + y, k + l, a);
  }

  lemma TruncZero(z: int, a: int)
    requires a > 0
    ensures TruncMod(z, a) == 0 <==> z % a == 0
  {
    if z < 0 {
      var q := (-z) / a;
      if (-z) % a == 0 {
        assert z == 0 + (-q) * a;
        ModShift(0, -q, a);
      }
      if z % a == 0 {
        var p := z / a;
        assert -z == 0 + (-p) * a;
        ModShift(0, -p, a);
      }
    }
  }

  /** What the loops divide by a to get a sample. */
  function Numerator(h: Hash, i: int, count: int): int { i - h.b + count * h.m }

  /** x is a preimage of bit i: it hashes to i after some number of wraps around m. */
  ghost predicate Solves(h: Hash, i: int, x: int) {
    exists c: nat :: h.a * x == Numerator(h, i, c)
  }

  ghost function Solutions(h: Hash, i: int, n: int): set<int> {
    set x | 1 <= x < n && Solves(h, i, x)
  }

  /** The sample of a round, if it is exact and in range. */
  ghost function Sampled(h: Hash, i: int, n: int, count: int): set<int>
    requires h.a > 0
  {
    var y := Numerator(h, i, count);
    if y % h.a == 0 && 0 < TruncDiv(y, h.a) < n then {TruncDiv(y, h.a)} else {}
  }

  /** The samples of the first count rounds. */
  ghost function Found(h: Hash, i: int, n: int, count: nat): set<int>
    requires h.a > 0
  {
    if count == 0 then {} else Found(h, i, n, count - 1) + Sampled(h, i, n, count - 1)
  }

  /** They are the solutions met in those rounds. */
  lemma {:induction false} FoundIs(h: Hash, i: int, n: int, count: nat, x: int)
    requires h.a > 0 && 1 <= x < n
    ensures x in Found(h, i, n, count) <==> exists c :: 0 <= c < count && h.a * x == Numerator(h, i, c)
  {
    if count > 0 {
      FoundIs(h, i, n, count - 1, x);
      ExactSample(h, i, count - 1, x);
    }
  }

  lemma {:induction false} FoundInRange(h: Hash, i: int, n: int, count: nat)
    requires h.a > 0
    ensures forall x | x in Found(h, i, n, count) :: 1 <= x < n
  {
    if count > 0 {
      FoundInRange(h, i, n, count - 1);
    }
  }

  lemma ExactSample(h: Hash, i: int, c: int, x: int)
    requires h.a > 0
    ensures h.a * x == Numerator(h, i, c) <==> Numerator(h, i, c) % h.a == 0 && x == TruncDiv(Numerator(h, i, c), h.a)
  {
    var y := Numerator(h, i, c);
    if h.a * x == y {
      DivUnique(y, h.a, x, 0);
      assert -y == (-x) * h.a + 0;
      DivUnique(-y, h.a, -x, 0);
    }
    if y % h.a == 0 {
      TruncZero(y, h.a);
      assert y == (y / h.a) * h.a;
      assert -y == ((-y) / h.a) * h.a + (-y) % h.a;
    }
  }

  /** Once a sample has reached n, no later round meets a solution below n. */
  lemma FoundAll(h: Hash, i: int, n: int, count: nat)
    requires h.a > 0 && h.m > 0
    requires n <= 0 || (count > 0 && TruncDiv(Numerator(h, i, count - 1), h.a) >= n)
    ensures Found(h, i, n, count) == Solutions(h, i, n)
  {
    FoundInRange(h, i, n, count);
    forall x | x in Found(h, i, n, count) ensures x in Solutions(h, i, n) {
      FoundIs(h, i, n, count, x);
    }
    forall x | 1 <= x < n && Solves(h, i, x)
      ensures x in Found(h, i, n, count)
    {
      FoundIs(h, i, n, count, x);
      var c: nat :| h.a * x == Numerator(h, i, c);
      if c >= count {
        TooLate(h, i, n, count, c, x);
      }
    }
  }

  lemma TooLate(h: Hash, i: int, n: int, count: nat, c: nat, x: int)
    requires h.a > 0 && h.m > 0 && 0 < count <= c && n >= 1
    requires TruncDiv(Numerator(h, i, count - 1), h.a) >= n
    requires h.a * x == Numerator(h, i, c)
    ensures x >= n
  {
    MulMonotone(h.m, count - 1, c);
    AtLeast(Numerator(h, i, count - 1), h.a, n);
    assert h.a * (x - n) >= 0;
    if x < n {
      MulMonotone(h.a, x - n, -1);
    }
  }

  lemma AtLeast(y: int, a: int, n: int)
    requires a > 0 && n >= 1
    ensures TruncDiv(y, a) >= n <==> y >= a * n
  {
    if y >= 0 {
      assert a * (y / a) <= y < a * (y / a) + a;
      if y / a >= n {
        MulMonotone(a, n, y / a);
      } else {
        MulMonotone(a, y / a + 1, n);
        assert a * (y / a + 1) == a * (y / a) + a;
      }
    }
  }

  // ---- Where the loop stops ---------------------------------------------------------------------------

  /** The first round whose sample is not below n. */
  function LastRound(h: Hash, i: int, n: int): nat
    requires ValidHash(h)
  {
    var gap := h.a * n - Numerator(h, i, 0);
    if gap <= 0 then 0 else CeilDiv(gap, h.m)
  }

  lemma RoundTest(h: Hash, i: int, n: int, c: nat)
    requires ValidHash(h) && n >= 1
    ensures TruncDiv(Numerator(h, i, c), h.a) >= n <==> c >= LastRound(h, i, n)
  {
    var gap := h.a * n - Numerator(h, i, 0);
    AtLeast(Numerator(h, i, c), h.a, n);
    assert Numerator(h, i, c) == Numerator(h, i, 0) + c * h.m;
    if gap <= 0 {
      MulMonotone(h.m, 0, c);
    } else {
      CeilDivCovers(gap, h.m, c);
    }
  }

  /** Whether the sample of that round is exact: reconstruct0 then clears it although it is no vertex. */
  predicate Exact(h: Hash, i: int, n: int)
    requires ValidHash(h)
  {
    n >= 1 && Numerator(h, i, LastRound(h, i, n)) % h.a == 0
  }

  function LastSample(h: Hash, i: int, n: int): int
    requires ValidHash(h)
  {
    TruncDiv(Numerator(h, i, LastRound(h, i, n)), h.a)
  }

  /** How to find it: the first exact sample that is not below n, with the one before it below. */
  lemma LastIs(h: Hash, i: int, n: int, c: nat, x: int)
    requires ValidHash(h) && 1 <= n <= x && Numerator(h, i, c) == h.a * x
    requires c > 0 ==> Numerator(h, i, c - 1) < h.a * n
    ensures Exact(h, i, n) && LastSample(h, i, n) == x
  {
    var y := Numerator(h, i, c);
    DivUnique(y, h.a, x, 0);
    MulMonotone(h.a, n, x);
    AtLeast(y, h.a, n);
    RoundTest(h, i, n, c);
    if c > 0 {
      AtLeast(Numerator(h, i, c - 1), h.a, n);
      RoundTest(h, i, n, c - 1);
    }
    MulMonotone(h.a, 0, x);
  }

  /** The sample beyond the vertices that is cleared. */
  function Beyond(h: Hash, i: int, n: int): set<int>
    requires ValidHash(h)
  {
    if Exact(h, i, n) then {LastSample(h, i, n)} else {}
  }

  lemma BeyondIs(h: Hash, i: int, n: int, x: int)
    requires ValidHash(h) && x in Beyond(h, i, n)
    ensures x >= n >= 1 && Solves(h, i, x)
  {
    var c := LastRound(h, i, n);
    var y := Numerator(h, i, c);
    RoundTest(h, i, n, c);
    AtLeast(y, h.a, n);
    MulMonotone(h.a, 1, n);
    assert h.a * x == y;
  }

  /** Without the loop: x is not below n, its hash plus a multiple of m is i, and either there is no multiple
      between or the one before belongs to a value below n. */
  predicate Overshoots(h: Hash, i: int, n: int, x: int)
    requires h.m > 0
  {
    && 1 <= n <= x
    && i % h.m == HashOf(h, x) && i <= h.a * x + h.b
    && (h.a * x + h.b - h.m < i || h.a * x - h.m < h.a * n)
  }

  /** The sample beyond the vertices that is cleared is exactly the x that overshoots. */
  lemma BeyondOvershoots(h: Hash, i: int, n: int, x: int)
    requires ValidHash(h) && i >= 0
    ensures x in Beyond(h, i, n) <==> Overshoots(h, i, n, x)
  {
    if x in Beyond(h, i, n) {
      BeyondOnly(h, i, n, x);
    }
    if Overshoots(h, i, n, x) {
      BeyondIf(h, i, n, x);
    }
  }

  lemma BeyondOnly(h: Hash, i: int, n: int, x: int)
    requires ValidHash(h) && i >= 0 && x in Beyond(h, i, n)
    ensures Overshoots(h, i, n, x)
  {
    var c := LastRound(h, i, n);
    BeyondIs(h, i, n, x);
    SolvesOnly(h, i, x);
    ExactSample(h, i, c, x);
    if c > 0 {
      RoundTest(h, i, n, c - 1);
      AtLeast(Numerator(h, i, c - 1), h.a, n);
    }
  }

  lemma BeyondIf(h: Hash, i: int, n: int, x: int)
    requires ValidHash(h) && i >= 0 && Overshoots(h, i, n, x)
    ensures x in Beyond(h, i, n)
  {
    SolvesIf(h, i, x);
    var c: nat :| h.a * x == Numerator(h, i, c);
    if c > 0 {
      if h.a * x + h.b - h.m < i {
        MulMonotone(h.m, 1, c);
      }
      assert Numerator(h, i, c - 1) == h.a * x - h.m;
    }
    LastIs(h, i, n, c, x);
  }

  /** Such an x is near the vertices or the bit, so there are finitely many to look at. */
  lemma OvershootsNear(h: Hash, i: int, n: int, x: int)
    requires ValidHash(h) && i >= 0 && Overshoots(h, i, n, x)
    ensures x < n + h.m || x <= i + 1
  {
    if x >= n + h.m {
      FarIsFirst(h, i, n, x);
      assert h.a * (x - 1) == h.a * x - h.a;
      MulMonotone(x - 1, 1, h.a);
    }
  }

  /** Far from the vertices it can only be met in the first round. */
  lemma FarIsFirst(h: Hash, i: int, n: int, x: int)
    requires ValidHash(h) && i >= 0 && Overshoots(h, i, n, x) && x >= n + h.m
    ensures i == h.a * x + h.b
  {
    FarFromVertices(h.a, h.m, n, x);
    SameMultiple(h.a * x + h.b, i, h.m);
  }

  lemma FarFromVertices(a: int, m: int, n: int, x: int)
    requires a > 0 && m > 0 && x >= n + m
    ensures a * x - m >= a * n
  {
    MulMonotone(a, n + m, x);
    MulMonotone(m, 1, a);
    assert a * (n + m) == a * n + m * a;
  }

  lemma SameMultiple(v: int, i: int, m: int)
    requires m > 0 && 0 <= i <= v < i + m && i % m == v % m
    ensures v == i
  {
    Wraps(v, i, m);
    if v / m - i / m > 0 {
      MulMonotone(m, 1, v / m - i / m);
    }
  }

  // ---- Which bits a vertex solves -----------------------------------------------------------------------

  /** A vertex solves exactly the bits that are its hash value plus a multiple of m and not beyond a*x + b. */
  lemma SolvesIs(h: Hash, i: int, x: int)
    requires ValidHash(h) && x >= 1 && i >= 0
    ensures Solves(h, i, x) <==> i <= h.a * x + h.b && i % h.m == HashOf(h, x)
    ensures Solves(h, i, x) && i < h.m ==> i == HashOf(h, x)
  {
    if Solves(h, i, x) {
      SolvesOnly(h, i, x);
    }
    if i <= h.a * x + h.b && i % h.m == HashOf(h, x) {
      SolvesIf(h, i, x);
    }
  }

  lemma SolvesIf(h: Hash, i: int, x: int)
    requires ValidHash(h) && i >= 0 && i <= h.a * x + h.b && i % h.m == HashOf(h, x)
    ensures Solves(h, i, x)
  {
    Wraps(h.a * x + h.b, i, h.m);
    var k: nat := (h.a * x + h.b) / h.m - i / h.m;
    assert h.a * x == Numerator(h, i, k);
  }

  lemma SolvesOnly(h: Hash, i: int, x: int)
    requires ValidHash(h) && x >= 1 && i >= 0 && Solves(h, i, x)
    ensures i <= h.a * x + h.b && i % h.m == HashOf(h, x)
    ensures i < h.m ==> i == HashOf(h, x)
  {
    var k: nat :| h.a * x == Numerator(h, i, k);
    assert h.a * x + h.b == i + k * h.m;
    MulMonotone(h.m, 0, k);
    ModShift(i, k, h.m);
    if i < h.m {
      DivUnique(i, h.m, 0, i);
    }
  }

  lemma Wraps(v: int, i: int, m: int)
    requires m > 0 && 0 <= i <= v && i % m == v % m
    ensures v - i == (v / m - i / m) * m && v / m - i / m >= 0
  {
    var k := v / m - i / m;
    assert v - i == k * m;
    if k < 0 {
      MulMonotone(m, k, -1);
    }
  }

  /** Every vertex solves the bit that is its hash value. */
  lemma SolvesOwn(h: Hash, x: int)
    requires ValidHash(h) && x >= 1
    ensures Solves(h, HashOf(h, x), x) && 0 <= HashOf(h, x) < h.m
  {
    var v := h.a * x + h.b;
    MulMonotone(h.a, 1, x);
    assert v >= 0;
    var q: nat := v / h.m;
    assert h.a * x == Numerator(h, v % h.m, q);
  }
}
