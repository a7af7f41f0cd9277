/** Merging and merge sort as functions: what the loops and the threads compute. */
module Merging {

  /** A number of the array. Only keys are compared; tags tell equal keys apart. */
  datatype Item = Item(key: int, tag: int)

  ghost predicate Ordered(s: seq<Item>) { forall i, j | 0 <= i < j < |s| :: s[i].key <= s[j].key }

  /** The items with key k, in their order. */
  ghost function Keyed(k: int, s: seq<Item>): seq<Item> {
    if s == [] then [] else (if s[0].key == k then [s[0]] else []) + Keyed(k, s[1..])
  }

  /** r is s sorted: it has the same items in ascending order, and equal keys keep their order. */
  ghost predicate StablySorted(s: seq<Item>, r: seq<Item>) {
    Ordered(r) && multiset(r) == multiset(s) && forall k :: Keyed(k, r) == Keyed(k, s)
  }

  function Merged(l: seq<Item>, r: seq<Item>): (m: seq<Item>)
    ensures |m| == |l| + |r|
  {
    if l == [] then r
    else if r == [] then l
    else if l[0].key <= r[0].key then [l[0]] + Merged(l[1..], r)
    else [r[0]] + Merged(l, r[1..])
  }

  /** The part that the left child sorts: the longer one, with the middle element. */
  function Left(s: seq<Item>): (l: seq<Item>)
    requires |s| > 1
    ensures 0 < |l| < |s|
  {
    s[..(|s| - 1) / 2 + 1]
  }

  function Right(s: seq<Item>): (r: seq<Item>)
    requires |s| > 1
    ensures 0 < |r| < |s| && s == Left(s) + r
  {
    s[(|s| - 1) / 2 + 1..]
  }

  function Sorted(s: seq<Item>): (r: seq<Item>)
    ensures |r| == |s|
    decreases |s|
  {
    if |s| <= 1 then s else Merged(Sorted(Left(s)), Sorted(Right(s)))
  }

  lemma {:induction false} KeyedAppend(k: int, s: seq<Item>, t: seq<Item>)
    ensures Keyed(k, s + t) == Keyed(k, s) + Keyed(k, t)
  {
    if s == [] {
      assert s + t == t;
    } else {
      var h := if s[0].key == k then [s[0]] else [];
      assert (s + t)[0] == s[0] && (s + t)[1..] == s[1..] + t;
      KeyedAppend(k, s[1..], t);
      assert (h + Keyed(k, s[1..])) + Keyed(k, t) == h + (Keyed(k, s[1..]) + Keyed(k, t));
    }
  }

  lemma KeyedFirst(k: int, x: Item, s: seq<Item>)
    ensures Keyed(k, [x] + s) == Keyed(k, [x]) + Keyed(k, s)
    ensures Keyed(k, [x]) == if x.key == k then [x] else []
  {
    assert ([x] + s)[1..] == s;
  }

  lemma KeyedLeft(k: int, x: Item, l: seq<Item>, r: seq<Item>, m: seq<Item>)
    requires Keyed(k, m) == Keyed(k, l) + Keyed(k, r)
    ensures Keyed(k, [x] + m) == Keyed(k, [x] + l) + Keyed(k, r)
  {
    KeyedFirst(k, x, m);
    KeyedFirst(k, x, l);
  }

  lemma KeyedRight(k: int, x: Item, l: seq<Item>, r: seq<Item>, m: seq<Item>)
    requires Keyed(k, m) == Keyed(k, l) + Keyed(k, r) && (x.key == k ==> Keyed(k, l) == [])
    ensures Keyed(k, [x] + m) == Keyed(k, l) + Keyed(k, [x] + r)
  {
    KeyedFirst(k, x, m);
    KeyedFirst(k, x, r);
  }

  lemma {:induction false} KeyedAbsent(k: int, s: seq<Item>)
    requires forall i | 0 <= i < |s| :: s[i].key != k
    ensures Keyed(k, s) == []
  {
    if s != [] {
      KeyedAbsent(k, s[1..]);
    }
  }

  /** A merge keeps the items of both sides, and on equal keys the left ones come first. */
  lemma {:induction false} MergedKeyed(k: int, l: seq<Item>, r: seq<Item>)
    requires Ordered(l) && Ordered(r)
    ensures Keyed(k, Merged(l, r)) == Keyed(k, l) + Keyed(k, r)
  {
    if l != [] && r != [] {
      if l[0].key <= r[0].key {
        MergedKeyed(k, l[1..], r);
        KeyedLeft(k, l[0], l[1..], r, Merged(l[1..], r));
        assert l == [l[0]] + l[1..];
      } else {
        MergedKeyed(k, l, r[1..]);
        if r[0].key == k {
          KeyedAbsent(k, l);
        }
        KeyedRight(k, r[0], l, r[1..], Merged(l, r[1..]));
        assert r == [r[0]] + r[1..];
      }
    }
  }

  lemma FirstItem(x: Item, s: seq<Item>, t: seq<Item>)
    ensures multiset([x] + s) == multiset{x} + multiset(s)
    ensures multiset([x] + t) == multiset{x} + multiset(t)
  {
  }

  lemma {:induction false} MergedItems(l: seq<Item>, r: seq<Item>)
    ensures multiset(Merged(l, r)) == multiset(l) + multiset(r)
  {
    if l != [] && r != [] {
      if l[0].key <= r[0].key {
        MergedItems(l[1..], r);
        FirstItem(l[0], l[1..], Merged(l[1..], r));
        assert l == [l[0]] + l[1..];
      } else {
        MergedItems(l, r[1..]);
        FirstItem(r[0], r[1..], Merged(l, r[1..]));
        assert r == [r[0]] + r[1..];
      }
    }
  }

  lemma {:induction false} MergedOrdered(l: seq<Item>, r: seq<Item>)
    requires Ordered(l) && Ordered(r)
    ensures Ordered(Merged(l, r))
  {
    if l != [] && r != [] {
      var m := Merged(l, r);
      if l[0].key <= r[0].key {
        MergedOrdered(l[1..], r);
        MergedItems(l[1..], r);
        Leads(l[0], l[1..], r);
      } else {
        MergedOrdered(l, r[1..]);
        Leads(r[0], l, r[1..]);
      }
    }
  }

  /** What is not above any item of two sequences is not above any item of their merge. */
  lemma Leads(x: Item, l: seq<Item>, r: seq<Item>)
    requires (forall i | 0 <= i < |l| :: x.key <= l[i].key) && (forall i | 0 <= i < |r| :: x.key <= r[i].key)
    ensures forall i | 0 <= i < |l| + |r| :: x.key <= Merged(l, r)[i].key
  {
    var m := Merged(l, r);
    forall i | 0 <= i < |m| ensures x.key <= m[i].key {
      MergedItems(l, r);
      assert m[i] in multiset(m);
      assert m[i] in l || m[i] in r;
    }
  }

  lemma {:induction false} SortedOrdered(s: seq<Item>)
    ensures Ordered(Sorted(s))
    decreases |s|
  {
    if |s| > 1 {
      var l, r := Left(s), Right(s);
      SortedOrdered(l);
      SortedOrdered(r);
      MergedOrdered(Sorted(l), Sorted(r));
    }
  }

  lemma {:induction false} SortedItems(s: seq<Item>)
    ensures multiset(Sorted(s)) == multiset(s)
    decreases |s|
  {
    if |s| > 1 {
      var l, r := Left(s), Right(s);
      SortedItems(l);
      SortedItems(r);
      MergedItems(Sorted(l), Sorted(r));
    }
  }

  lemma {:induction false} SortedKeyed(k: int, s: seq<Item>)
    ensures Keyed(k, Sorted(s)) == Keyed(k, s)
    decreases |s|
  {
    if |s| > 1 {
      var l, r := Left(s), Right(s);
      SortedKeyed(k, l);
      SortedKeyed(k, r);
      SortedOrdered(l);
      SortedOrdered(r);
      MergedKeyed(k, Sorted(l), Sorted(r));
      KeyedAppend(k, l, r);
    }
  }

  lemma SortedIsStable(s: seq<Item>)
    ensures StablySorted(s, Sorted(s))
  {
    SortedOrdered(s);
    SortedItems(s);
    forall k ensures Keyed(k, Sorted(s)) == Keyed(k, s) {
      SortedKeyed(k, s);
    }
  }

  /** There is only one way to sort stably. */
  lemma {:induction false} StableIsUnique(a: seq<Item>, b: seq<Item>)
    requires Ordered(a) && Ordered(b) && |a| == |b| && forall k :: Keyed(k, a) == Keyed(k, b)
    ensures a == b
  {
    if a != [] {
      assert Keyed(a[0].key, b) == Keyed(a[0].key, a) != [] && Keyed(b[0].key, a) == Keyed(b[0].key, b) != [];
      FirstIsLeast(a, b);
      FirstIsLeast(b, a);
      assert Keyed(a[0].key, a)[0] == a[0] && Keyed(b[0].key, b)[0] == b[0];
      assert a[0] == b[0];
      forall k ensures Keyed(k, a[1..]) == Keyed(k, b[1..]) {
        assert Keyed(k, a) == Keyed(k, b);
        assert Keyed(k, a[1..]) == if a[0].key == k then Keyed(k, a)[1..] else Keyed(k, a);
        assert Keyed(k, b[1..]) == if b[0].key == k then Keyed(k, b)[1..] else Keyed(k, b);
      }
      StableIsUnique(a[1..], b[1..]);
    }
  }

  lemma FirstIsLeast(a: seq<Item>, b: seq<Item>)
    requires a != [] && b != [] && Ordered(b) && Keyed(a[0].key, b) != []
    ensures b[0].key <= a[0].key
  {
    var i := KeyedPresent(a[0].key, b);
  }

  lemma {:induction false} KeyedPresent(k: int, s: seq<Item>) returns (i: nat)
    requires Keyed(k, s) != []
    ensures i < |s| && s[i].key == k
  {
    i := 0;
    if s[0].key != k {
      i := KeyedPresent(k, s[1..]);
      i := i + 1;
    }
  }

  // ---- Merging in place ----------------------------------------------------------------------------

  /** Whether the merge takes its next item from the left side. */
  predicate FromLeft(l: seq<Item>, r: seq<Item>, i: nat, j: nat)
    requires i <= |l| && j <= |r|
  {
    i < |l| && (j == |r| || l[i].key <= r[j].key)
  }

  /** What is left to merge is the end of the merge. */
  ghost predicate Remains(l: seq<Item>, r: seq<Item>, i: nat, j: nat) {
    i <= |l| && j <= |r| && Merged(l, r)[i + j..] == Merged(l[i..], r[j..])
  }

  lemma RemainsKept(l: seq<Item>, r: seq<Item>, i: nat, j: nat)
    requires Remains(l, r, i, j) && i + j < |l| + |r|
    ensures if FromLeft(l, r, i, j) then Merged(l, r)[i + j] == l[i] && Remains(l, r, i + 1, j)
            else j < |r| && Merged(l, r)[i + j] == r[j] && Remains(l, r, i, j + 1)
  {
    var m := Merged(l, r);
    assert i < |l| ==> l[i..][1..] == l[i + 1..];
    assert j < |r| ==> r[j..][1..] == r[j + 1..];
    assert m[i + j..][0] == m[i + j] && m[i + j..][1..] == m[i + j + 1..];
  }

  lemma RestIsCopied(l: seq<Item>, r: seq<Item>, i: nat, j: nat)
    requires Remains(l, r, i, j) && (i == |l| || j == |r|)
    ensures j == |r| ==> forall q | i + j <= q < |l| + |r| :: Merged(l, r)[q] == l[q - j]
    ensures i == |l| ==> forall q | i + j <= q < |l| + |r| :: Merged(l, r)[q] == r[q - i]
  {
    var m := Merged(l, r);
    forall q | i + j <= q < |m| ensures m[q] == m[i + j..][q - i - j] {
    }
  }

  // ---- Ranges of the array ---------------------------------------------------------------------------

  /** b is a with the range from low to high, both included, replaced by part. */
  ghost predicate Replaced(a: seq<Item>, b: seq<Item>, low: int, high: int, part: seq<Item>) {
    && 0 <= low <= high + 1 <= |a| == |b| && b[low..high + 1] == part
    && forall q | 0 <= q < |a| && !(low <= q <= high) :: b[q] == a[q]
  }

  lemma SortedOfParts(s: seq<Item>, sl: seq<Item>, sr: seq<Item>)
    requires |s| > 1 && sl == Left(s) && sr == Right(s)
    ensures Sorted(s) == Merged(Sorted(sl), Sorted(sr))
  {
  }

  lemma Parts(a: seq<Item>, low: int, mid: int, high: int)
    requires 0 <= low < high < |a| && mid == low + (high - low) / 2
    ensures Left(a[low..high + 1]) == a[low..mid + 1] && Right(a[low..high + 1]) == a[mid + 1..high + 1]
  {
  }

  /** Parts of the range beside a replaced one keep what they hold. */
  lemma Beside(a: seq<Item>, b: seq<Item>, low: int, high: int, part: seq<Item>, from: int, to: int)
    requires Replaced(a, b, low, high, part) && 0 <= from <= to <= |a| && (to <= low || from > high)
    ensures b[from..to] == a[from..to]
  {
  }

  lemma PartsInPlace(a: seq<Item>, b: seq<Item>, c: seq<Item>, low: int, mid: int, high: int, l: seq<Item>,
                     r: seq<Item>)
    requires low <= mid < high && Replaced(a, b, low, mid, l) && Replaced(b, c, mid + 1, high, r)
    ensures c[low..mid + 1] == l && c[mid + 1..high + 1] == r && b[mid + 1..high + 1] == a[mid + 1..high + 1]
  {
    Beside(a, b, low, mid, l, mid + 1, high + 1);
    Beside(b, c, mid + 1, high, r, low, mid + 1);
  }

  lemma RangeReplaced(a: seq<Item>, b: seq<Item>, c: seq<Item>, d: seq<Item>, low: int, mid: int, high: int,
                      l: seq<Item>, r: seq<Item>, m: seq<Item>)
    requires low <= mid < high && Replaced(a, b, low, mid, l) && Replaced(b, c, mid + 1, high, r)
        && Replaced(c, d, low, high, m)
    ensures Replaced(a, d, low, high, m)
  {
  }

  /** Sorting both parts and merging them sorts the range. */
  lemma PartsSorted(a: seq<Item>, b: seq<Item>, c: seq<Item>, d: seq<Item>, low: int, mid: int, high: int)
    requires 0 <= low < high < |a| && mid == low + (high - low) / 2
    requires Replaced(a, b, low, mid, Sorted(a[low..mid + 1]))
        && Replaced(b, c, mid + 1, high, Sorted(b[mid + 1..high + 1]))
    requires Replaced(c, d, low, high, Merged(c[low..mid + 1], c[mid + 1..high + 1]))
    ensures Replaced(a, d, low, high, Sorted(a[low..high + 1]))
  {
    var l, r := Sorted(a[low..mid + 1]), Sorted(b[mid + 1..high + 1]);
    PartsInPlace(a, b, c, low, mid, high, l, r);
    RangeReplaced(a, b, c, d, low, mid, high, l, r, Merged(l, r));
    Parts(a, low, mid, high);
    SortedOfParts(a[low..high + 1], a[low..mid + 1], a[mid + 1..high + 1]);
  }

  /** A range of at most one item is sorted. */
  lemma ShortRange(a: seq<Item>, low: int, high: int)
    requires 0 <= low <= high + 1 <= |a| && low >= high
    ensures Replaced(a, a, low, high, Sorted(a[low..high + 1]))
  {
  }

  // ---- The program on its array --------------------------------------------------------------------

  /** Copies a part of the array into a new one. */
  method CopyPart(arr: array<Item>, from: int, n: int) returns (part: array<Item>)
    requires 0 <= from && 0 <= n && from + n <= arr.Length
    ensures fresh(part) && part[..] == arr[from..from + n]
  {
    part := new Item[n](_ => Item(0, 0));
    var i := 0;
    while i < n
      invariant 0 <= i <= n && part[..i] == arr[from..from + i]
    {
      part[i] := arr[from + i];
      i := i + 1;
    }
  }

  lemma SliceIs(a: seq<Item>, low: nat, end: nat, m: seq<Item>)
    requires low <= end <= |a| && |m| == end - low && forall q | low <= q < end :: a[q] == m[q - low]
    ensures a[low..end] == m
  {
  }

  /** Each of the last two loops of merge: what is left over of one side. */
  method CopyRest(arr: array<Item>, to: nat, part: array<Item>, from: nat)
    requires from <= part.Length && to + part.Length - from <= arr.Length && arr != part
    modifies arr
    ensures forall q | to <= q < to + part.Length - from :: arr[q] == part[from + q - to]
    ensures forall q | 0 <= q < arr.Length && !(to <= q < to + part.Length - from) :: arr[q] == old(arr[q])
  {
    var k, i := to, from;
    while i < part.Length
      invariant from <= i <= part.Length && k == to + i - from
      invariant forall q | to <= q < k :: arr[q] == part[from + q - to]
      invariant forall q | 0 <= q < arr.Length && !(to <= q < k) :: arr[q] == old(arr[q])
    {
      arr[k] := part[i];
      k, i := k + 1, i + 1;
    }
  }

  /** The first loop of merge: left and right are copies of the two parts. */
  method MergeBoth(arr: array<Item>, low: nat, left: array<Item>, right: array<Item>) returns (i: nat, j: nat)
    requires low + left.Length + right.Length <= arr.Length && arr != left && arr != right
    modifies arr
    ensures Remains(left[..], right[..], i, j) && (i == left.Length || j == right.Length)
    ensures forall q | low <= q < low + i + j :: arr[q] == Merged(left[..], right[..])[q - low]
    ensures forall q | 0 <= q < arr.Length && !(low <= q < low + i + j) :: arr[q] == old(arr[q])
  {
    ghost var l, r, m := left[..], right[..], Merged(left[..], right[..]);
    i, j := 0, 0;
    var k := low;
    while i < left.Length && j < right.Length
      invariant i <= left.Length && j <= right.Length && k == low + i + j && Remains(l, r, i, j)
      invariant forall q | low <= q < k :: arr[q] == m[q - low]
      invariant forall q | 0 <= q < arr.Length && !(low <= q < k) :: arr[q] == old(arr[q])
    {
      RemainsKept(l, r, i, j);
      if left[i].key <= right[j].key {
        arr[k] := left[i];
        k, i := k + 1, i + 1;
      } else {
        arr[k] := right[j];
        k, j := k + 1, j + 1;
      }
    }
  }

  /** Both of them; m is what the first loop has begun. */
  method CopyRests(arr: array<Item>, low: nat, left: array<Item>, right: array<Item>, i: nat, j: nat,
                   ghost m: seq<Item>)
    requires low + |m| <= arr.Length && |m| == left.Length + right.Length && arr != left && arr != right
    requires i <= left.Length && j <= right.Length && (i == left.Length || j == right.Length)
    requires forall q | low <= q < low + i + j :: arr[q] == m[q - low]
    requires j == right.Length ==> forall q | i + j <= q < |m| :: m[q] == left[q - j]
    requires i == left.Length ==> forall q | i + j <= q < |m| :: m[q] == right[q - i]
    modifies arr
    ensures forall q | low <= q < low + |m| :: arr[q] == m[q - low]
    ensures forall q | 0 <= q < arr.Length && !(low <= q < low + |m|) :: arr[q] == old(arr[q])
  {
    CopyRest(arr, low + i + j, left, i);
    CopyRest(arr, low + left.Length + j, right, j);
  }

  /** All loops of merge behind the copying. */
  method MergeLoops(arr: array<Item>, low: nat, left: array<Item>, right: array<Item>)
    requires low + left.Length + right.Length <= arr.Length && arr != left && arr != right
    modifies arr
    ensures forall q | low <= q < low + left.Length + right.Length :: arr[q] == Merged(left[..], right[..])[q - low]
    ensures forall q | 0 <= q < arr.Length && !(low <= q < low + left.Length + right.Length) :: arr[q] == old(arr[q])
  {
    var i, j := MergeBoth(arr, low, left, right);
    RestIsCopied(left[..], right[..], i, j);
    CopyRests(arr, low, left, right, i, j, Merged(left[..], right[..]));
  }

  method Merge(arr: array<Item>, low: int, mid: int, high: int)
    requires 0 <= low <= mid < high < arr.Length
    modifies arr
    ensures Replaced(old(arr[..]), arr[..], low, high,
        Merged(old(arr[..])[low..mid + 1], old(arr[..])[mid + 1..high + 1]))
  {
    ghost var a := arr[..];
    var n1, n2 := mid - low + 1, high - mid;
    var left := CopyPart(arr, low, n1);
    var right := CopyPart(arr, mid + 1, n2);
    assert left[..] == a[low..mid + 1] && right[..] == a[mid + 1..high + 1];
    MergeLoops(arr, low, left, right);
    SliceIs(arr[..], low, high + 1, Merged(left[..], right[..]));
  }

  /** merge_sort when the second child starts after the first one has ended. */
  method MergeSort(arr: array<Item>, low: int, high: int)
    requires 0 <= low <= high + 1 <= arr.Length
    modifies arr
    ensures Replaced(old(arr[..]), arr[..], low, high, Sorted(old(arr[..])[low..high + 1]))
    decreases high - low
  {
    ghost var a := arr[..];
    if low < high {
      var mid := low + (high - low) / 2;
      MergeSort(arr, low, mid);
      ghost var b := arr[..];
      MergeSort(arr, mid + 1, high);
      ghost var c := arr[..];
      Merge(arr, low, mid, high);
      ghost var d := arr[..];
      PartsSorted(a, b, c, d, low, mid, high);
    } else {
      ShortRange(a, low, high);
    }
  }
}
