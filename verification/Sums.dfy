/** Sums of an integer weight over the elements of a sequence, and the few laws the
    thread-counting invariants of the protocols rest on. */
module Sums {

  ghost function Sum<T>(f: T -> int, xs: seq<T>): int {
    if xs == [] then 0 else f(xs[0]) + Sum(f, xs[1..])
  }

  lemma {:induction false} SumAppend<T>(f: T -> int, xs: seq<T>, ys: seq<T>)
    ensures Sum(f, xs + ys) == Sum(f, xs) + Sum(f, ys)
  {
    if xs == [] {
      assert xs + ys == ys;
    } else {
      assert (xs + ys)[1..] == xs[1..] + ys;
      SumAppend(f, xs[1..], ys);
    }
  }

  /** Changing one element changes the sum by the difference of its weights. */
  lemma {:induction false} SumUpdate<T>(f: T -> int, xs: seq<T>, i: nat, x: T)
    requires i < |xs|
    ensures Sum(f, xs[i := x]) == Sum(f, xs) - f(xs[i]) + f(x)
  {
    if i == 0 {
      assert xs[0 := x][1..] == xs[1..];
    } else {
      assert xs[i := x][1..] == xs[1..][i - 1 := x];
      SumUpdate(f, xs[1..], i - 1, x);
    }
  }

  lemma {:induction false} SumBounds<T>(f: T -> int, xs: seq<T>, low: int, high: int)
    requires forall k | 0 <= k < |xs| :: low <= f(xs[k]) <= high
    ensures low * |xs| <= Sum(f, xs) <= high * |xs|
  {
    if xs != [] {
      forall k | 0 <= k < |xs[1..]| ensures low <= f(xs[1..][k]) <= high {
        assert xs[1..][k] == xs[k + 1];
      }
      SumBounds(f, xs[1..], low, high);
      assert low * |xs| == low * |xs[1..]| + low && high * |xs| == high * |xs[1..]| + high;
    }
  }

  /** A non-negative weight of one element is at most the sum. */
  lemma SumAtLeast<T>(f: T -> int, xs: seq<T>, i: nat)
    requires i < |xs|
    requires forall k | 0 <= k < |xs| :: 0 <= f(xs[k])
    ensures f(xs[i]) <= Sum(f, xs)
  {
    SumRest(f, xs, i);
  }

  /** Two different elements together weigh at most the sum. */
  lemma {:induction false} SumAtLeastTwo<T>(f: T -> int, xs: seq<T>, i: nat, j: nat)
    requires i < |xs| && j < |xs| && i != j
    requires forall k | 0 <= k < |xs| :: 0 <= f(xs[k])
    ensures f(xs[i]) + f(xs[j]) <= Sum(f, xs)
    decreases i
  {
    if i < j {
      SumRest(f, xs, i);
      var ys := xs[..i] + xs[i + 1..];
      assert ys[j - 1] == xs[j];
      SumRest(f, ys, j - 1);
    } else {
      SumAtLeastTwo(f, xs, j, i);
    }
  }

  lemma SumRest<T>(f: T -> int, xs: seq<T>, i: nat)
    requires i < |xs|
    requires forall k | 0 <= k < |xs| :: 0 <= f(xs[k])
    ensures Sum(f, xs) == f(xs[i]) + Sum(f, xs[..i] + xs[i + 1..])
    ensures 0 <= Sum(f, xs[..i] + xs[i + 1..])
  {
    assert xs == xs[..i] + ([xs[i]] + xs[i + 1..]);
    SumAppend(f, xs[..i], [xs[i]] + xs[i + 1..]);
    SumAppend(f, [xs[i]], xs[i + 1..]);
    SumAppend(f, xs[..i], xs[i + 1..]);
    SumNonNegative(f, xs[..i]);
    SumNonNegative(f, xs[i + 1..]);
  }

  lemma {:induction false} SumNonNegative<T>(f: T -> int, xs: seq<T>)
    requires forall k | 0 <= k < |xs| :: 0 <= f(xs[k])
    ensures 0 <= Sum(f, xs)
  {
    if xs != [] {
      forall k | 0 <= k < |xs[1..]| ensures 0 <= f(xs[1..][k]) {
        assert xs[1..][k] == xs[k + 1];
      }
      SumNonNegative(f, xs[1..]);
    }
  }

  /** A positive sum has an element of positive weight. */
  lemma {:induction false} SumWitness<T>(f: T -> int, xs: seq<T>) returns (i: nat)
    requires Sum(f, xs) > 0
    ensures i < |xs| && f(xs[i]) > 0
  {
    if f(xs[0]) > 0 {
      i := 0;
    } else {
      i := SumWitness(f, xs[1..]);
      i := i + 1;
    }
  }

  /** A weight that is nowhere larger has no larger sum. */
  lemma {:induction false} SumDominated<T>(f: T -> int, g: T -> int, xs: seq<T>)
    requires forall k | 0 <= k < |xs| :: f(xs[k]) <= g(xs[k])
    ensures Sum(f, xs) <= Sum(g, xs)
  {
    if xs != [] {
      forall k | 0 <= k < |xs[1..]| ensures f(xs[1..][k]) <= g(xs[1..][k]) {
        assert xs[1..][k] == xs[k + 1];
      }
      SumDominated(f, g, xs[1..]);
    }
  }

  /** Equal weights position by position give equal sums. */
  lemma {:induction false} SumMatch<T, U>(f: T -> int, xs: seq<T>, g: U -> int, ys: seq<U>)
    requires |xs| == |ys|
    requires forall k | 0 <= k < |xs| :: f(xs[k]) == g(ys[k])
    ensures Sum(f, xs) == Sum(g, ys)
  {
    if xs != [] {
      forall k | 0 <= k < |xs[1..]| ensures f(xs[1..][k]) == g(ys[1..][k]) {
        assert xs[1..][k] == xs[k + 1] && ys[1..][k] == ys[k + 1];
      }
      SumMatch(f, xs[1..], g, ys[1..]);
    }
  }

  /** A combination of two weights has the combination of the sums. */
  lemma {:induction false} SumCombine<T>(h: T -> int, f: T -> int, g: T -> int, a: int, b: int, xs: seq<T>)
    requires forall k | 0 <= k < |xs| :: h(xs[k]) == a * f(xs[k]) + b * g(xs[k])
    ensures Sum(h, xs) == a * Sum(f, xs) + b * Sum(g, xs)
  {
    if xs != [] {
      forall k | 0 <= k < |xs[1..]| ensures h(xs[1..][k]) == a * f(xs[1..][k]) + b * g(xs[1..][k]) {
        assert xs[1..][k] == xs[k + 1];
      }
      SumCombine(h, f, g, a, b, xs[1..]);
    }
  }
}
