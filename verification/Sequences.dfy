/** Inserting into sequences, for the nodes of linked lists and what they hold. */
module Sequences {
  ghost predicate Distinct<T>(xs: seq<T>) { forall i, j | 0 <= i < j < |xs| :: xs[i] != xs[j] }

  /** The i-th element, or none behind the last one. */
  function Nth<T>(xs: seq<T>, i: nat, none: T): T { if i < |xs| then xs[i] else none }

  /** xs with x inserted behind the first i elements. */
  function Spliced<T>(xs: seq<T>, x: T, i: nat): (r: seq<T>)
    requires i <= |xs|
    ensures i == 0 ==> r == [x] + xs
    ensures i == |xs| ==> r == xs + [x]
  {
    xs[..i] + [x] + xs[i..]
  }

  lemma SplicedAt<T>(xs: seq<T>, x: T, i: nat)
    requires i <= |xs|
    ensures |Spliced(xs, x, i)| == |xs| + 1
    ensures forall k | 0 <= k <= |xs| ::
              Spliced(xs, x, i)[k] == if k < i then xs[k] else if k == i then x else xs[k - 1]
    ensures Distinct(xs) && x !in xs ==> Distinct(Spliced(xs, x, i))
  {
    var r := Spliced(xs, x, i);
    assert forall k | 0 <= k <= |xs| :: r[k] == if k < i then xs[k] else if k == i then x else xs[k - 1];
  }

  /** The same as a sequence of its own, known only by its elements. */
  lemma Splice<T>(xs: seq<T>, x: T, i: nat) returns (r: seq<T>)
    requires i <= |xs|
    ensures |r| == |xs| + 1
    ensures forall k {:trigger r[k]} | 0 <= k <= |xs| ::
              r[k] == if k < i then xs[k] else if k == i then x else xs[k - 1]
    ensures Distinct(xs) && x !in xs ==> Distinct(r)
  {
    r := Spliced(xs, x, i);
    SplicedAt(xs, x, i);
  }

  /** xs without its i-th element, known only by its elements. */
  lemma Cut<T>(xs: seq<T>, i: nat) returns (r: seq<T>)
    requires i < |xs|
    ensures r == xs[..i] + xs[i + 1..] && |r| == |xs| - 1
    ensures forall k {:trigger r[k]} | 0 <= k < |r| :: r[k] == if k < i then xs[k] else xs[k + 1]
    ensures Distinct(xs) ==> Distinct(r)
  {
    r := xs[..i] + xs[i + 1..];
  }
}
