/** merge_sort as a tree of threads: each forks two children on the halves of its range, joins both and
    merges, one array access per step. */
module ForkJoin {
  import opened Merging
  import opened Runs

  datatype Task =
    | Begin(low: int, high: int)
    | Wait(low: int, high: int, left: Task, right: Task)                               // in pthread_join
    | Copy(low: int, high: int, l: seq<Item>, r: seq<Item>)                            // filling left and right
    | Place(low: int, high: int, l: seq<Item>, r: seq<Item>, i: nat, j: nat)           // the three merging loops
    | End(low: int, high: int)

  datatype State = State(arr: seq<Item>, root: Task)

  function Mid(low: int, high: int): int { low + (high - low) / 2 }

  ghost predicate LeftStep(a: seq<Item>, t: Task, a': seq<Item>, t': Task)
    requires t.Wait?
    decreases t, 0
  {
    t'.Wait? && t' == Wait(t.low, t.high, t'.left, t.right) && TaskStep(a, t.left, a', t'.left)
  }

  ghost predicate RightStep(a: seq<Item>, t: Task, a': seq<Item>, t': Task)
    requires t.Wait?
    decreases t, 0
  {
    t'.Wait? && t' == Wait(t.low, t.high, t.left, t'.right) && TaskStep(a, t.right, a', t'.right)
  }

  ghost predicate CopyStep(a: seq<Item>, t: Task, t': Task)
    requires t.Copy?
  {
    var low, mid, high, l, r := t.low, Mid(t.low, t.high), t.high, t.l, t.r;
    if |l| < mid - low + 1 then 0 <= low + |l| < |a| && t' == Copy(low, high, l + [a[low + |l|]], r)
    else if |r| < high - mid then 0 <= mid + 1 + |r| < |a| && t' == Copy(low, high, l, r + [a[mid + 1 + |r|]])
    else t' == Place(low, high, l, r, 0, 0)
  }

  ghost predicate PlaceStep(a: seq<Item>, t: Task, a': seq<Item>, t': Task)
    requires t.Place?
  {
    var low, high, l, r, i, j := t.low, t.high, t.l, t.r, t.i, t.j;
    && i <= |l| && j <= |r|
    && if i == |l| && j == |r| then a' == a && t' == End(low, high)
       else
         && 0 <= low + i + j < |a|
         && if FromLeft(l, r, i, j) then a' == a[low + i + j := l[i]] && t' == Place(low, high, l, r, i + 1, j)
            else j < |r| && a' == a[low + i + j := r[j]] && t' == Place(low, high, l, r, i, j + 1)
  }

  /** A step of task t or of one of its descendants. */
  ghost predicate TaskStep(a: seq<Item>, t: Task, a': seq<Item>, t': Task)
    decreases t, 1
  {
    match t
    case Begin(low, high) =>
      && a' == a
      && t' == if low < high then Wait(low, high, Begin(low, Mid(low, high)), Begin(Mid(low, high) + 1, high))
          else End(low, high)
    case Wait(low, high, left, right) =>
      || LeftStep(a, t, a', t') || RightStep(a, t, a', t')
      || (left.End? && right.End? && a' == a && t' == Copy(low, high, [], []))
    case Copy(_, _, _, _) => a' == a && CopyStep(a, t, t')
    case Place(_, _, _, _, _, _) => PlaceStep(a, t, a', t')
    case End(_, _) => false
  }

  ghost predicate Next(s: State, s': State) { TaskStep(s.arr, s.root, s'.arr, s'.root) }

  ghost predicate Init(arr: seq<Item>, n: nat, s: State) { n <= |arr| && s == State(arr, Begin(0, n - 1)) }

  ghost predicate Run(arr: seq<Item>, n: nat, run: seq<State>) { IsRun((s: State) => Init(arr, n, s), Next, run) }

  lemma Starts(arr: seq<Item>, n: nat)
    requires n <= |arr|
    ensures Run(arr, n, [State(arr, Begin(0, n - 1))])
  {
  }

  // ---- Locality ------------------------------------------------------------------------------------

  /** The ranges of the children are the halves of the range. */
  ghost predicate Nested(t: Task) {
    t.Wait? ==>
      && t.low < t.high && Nested(t.left) && Nested(t.right)
      && t.left.low == t.low && t.left.high == Mid(t.low, t.high)
      && t.right.low == Mid(t.low, t.high) + 1 && t.right.high == t.high
  }

  ghost predicate Same(a: seq<Item>, b: seq<Item>, low: int, high: int) {
    |a| == |b| && forall q | 0 <= q < |a| && low <= q <= high :: a[q] == b[q]
  }

  ghost predicate SameOutside(a: seq<Item>, b: seq<Item>, low: int, high: int) {
    |a| == |b| && forall q | 0 <= q < |a| && !(low <= q <= high) :: a[q] == b[q]
  }

  /** The parts that a task copies and merges fit its range. */
  ghost predicate Fitting(t: Task) {
    match t
    case Wait(_, _, left, right) => Fitting(left) && Fitting(right)
    case Copy(low, high, l, r) => low < high && |l| <= Mid(low, high) - low + 1 && |r| <= high - Mid(low, high)
    case Place(low, high, l, r, i, j) => low < high && |l| == Mid(low, high) - low + 1 && |r| == high - Mid(low, high)
    case _ => true
  }

  /** A step keeps the range of its task and writes nothing outside it. */
  lemma {:induction false} WritesOwnRange(a: seq<Item>, t: Task, a': seq<Item>, t': Task)
    requires Nested(t) && Fitting(t) && TaskStep(a, t, a', t')
    ensures Nested(t') && Fitting(t') && t'.low == t.low && t'.high == t.high
    ensures SameOutside(a, a', t.low, t.high)
    decreases t
  {
    if t.Wait? {
      if LeftStep(a, t, a', t') {
        WritesOwnRange(a, t.left, a', t'.left);
      } else if RightStep(a, t, a', t') {
        WritesOwnRange(a, t.right, a', t'.right);
      }
    }
  }

  /** A step depends on nothing outside the range: in another array with the same range it does the same. */
  lemma {:induction false} ReadsOwnRange(a: seq<Item>, t: Task, a': seq<Item>, t': Task, b: seq<Item>)
    returns (b': seq<Item>)
    requires Nested(t) && Fitting(t) && TaskStep(a, t, a', t') && Same(a, b, t.low, t.high)
    ensures TaskStep(b, t, b', t') && Same(a', b', t.low, t.high)
    decreases t
  {
    match t
    case Wait(low, high, left, right) =>
      if LeftStep(a, t, a', t') {
        b' := ReadsOwnRange(a, left, a', t'.left, b);
        WritesOwnRange(a, left, a', t'.left);
        WritesOwnRange(b, left, b', t'.left);
      } else if RightStep(a, t, a', t') {
        b' := ReadsOwnRange(a, right, a', t'.right, b);
        WritesOwnRange(a, right, a', t'.right);
        WritesOwnRange(b, right, b', t'.right);
      } else {
        b' := b;
      }
    case Place(low, high, l, r, i, j) =>
      b' := if i == |l| && j == |r| then b
            else if FromLeft(l, r, i, j) then b[low + i + j := l[i]]
            else b[low + i + j := r[j]];
    case _ => b' := b;
  }

  // ---- What the array holds --------------------------------------------------------------------------

  /** part lies in the array from low on. */
  ghost predicate Holds(a: seq<Item>, low: int, part: seq<Item>) {
    0 <= low && low + |part| <= |a| && forall q | low <= q < low + |part| :: a[q] == part[q - low]
  }

  /** Half-way through copying the sorted halves. */
  ghost predicate Copied(a: seq<Item>, low: int, mid: int, sl: seq<Item>, sr: seq<Item>, l: seq<Item>, r: seq<Item>) {
    Holds(a, low, sl) && Holds(a, mid + 1, sr) && l <= sl && r <= sr && (r != [] ==> l == sl)
  }

  /** Half-way through merging them. */
  ghost predicate Placed(a: seq<Item>, low: int, sl: seq<Item>, sr: seq<Item>, l: seq<Item>, r: seq<Item>,
                         i: nat, j: nat)
  {
    l == sl && r == sr && Remains(l, r, i, j) && Holds(a, low, Merged(l, r)[..i + j])
  }

  /** What a task has made of its range, which held was at the start. */
  ghost predicate Good(was: seq<Item>, a: seq<Item>, t: Task) {
    && 0 <= t.low && |was| == t.high - t.low + 1 && t.high < |a|
    && match t
       case Begin(low, _) => Holds(a, low, was)
       case Wait(_, _, left, right) => |was| > 1 && Good(Left(was), a, left) && Good(Right(was), a, right)
       case Copy(low, high, l, r) =>
         && |was| > 1
         && Copied(a, low, Mid(low, high), Sorted(Left(was)), Sorted(Right(was)), l, r)
       case Place(low, _, l, r, i, j) => |was| > 1 && Placed(a, low, Sorted(Left(was)), Sorted(Right(was)), l, r, i, j)
       case End(low, _) => Holds(a, low, Sorted(was))
  }

  lemma HoldsElsewhere(a: seq<Item>, b: seq<Item>, low: int, part: seq<Item>, from: int, to: int)
    requires Holds(a, low, part) && Same(a, b, from, to) && from <= low && low + |part| <= to + 1
    ensures Holds(b, low, part)
  {
  }

  lemma CopiedElsewhere(a: seq<Item>, b: seq<Item>, t: Task, sl: seq<Item>, sr: seq<Item>)
    requires t.Copy? && Copied(a, t.low, Mid(t.low, t.high), sl, sr, t.l, t.r) && Same(a, b, t.low, t.high)
    requires t.low <= t.high && |sl| == Mid(t.low, t.high) - t.low + 1 && |sr| == t.high - Mid(t.low, t.high)
    ensures Copied(b, t.low, Mid(t.low, t.high), sl, sr, t.l, t.r)
  {
    HoldsElsewhere(a, b, t.low, sl, t.low, t.high);
    HoldsElsewhere(a, b, Mid(t.low, t.high) + 1, sr, t.low, t.high);
  }

  lemma PlacedElsewhere(a: seq<Item>, b: seq<Item>, t: Task, sl: seq<Item>, sr: seq<Item>)
    requires t.Place? && Fitting(t) && Placed(a, t.low, sl, sr, t.l, t.r, t.i, t.j) && Same(a, b, t.low, t.high)
    ensures Placed(b, t.low, sl, sr, t.l, t.r, t.i, t.j)
  {
    HoldsElsewhere(a, b, t.low, Merged(t.l, t.r)[..t.i + t.j], t.low, t.high);
  }

  /** What a task has made depends on its own range only. */
  lemma {:induction false} GoodElsewhere(was: seq<Item>, a: seq<Item>, b: seq<Item>, t: Task)
    requires Good(was, a, t) && Nested(t) && Fitting(t) && Same(a, b, t.low, t.high)
    ensures Good(was, b, t)
    decreases t
  {
    match t
    case Begin(low, high) => HoldsElsewhere(a, b, low, was, low, high);
    case Wait(_, _, left, right) =>
      GoodElsewhere(Left(was), a, b, left);
      GoodElsewhere(Right(was), a, b, right);
    case Copy(low, high, l, r) => CopiedElsewhere(a, b, t, Sorted(Left(was)), Sorted(Right(was)));
    case Place(low, high, l, r, i, j) => PlacedElsewhere(a, b, t, Sorted(Left(was)), Sorted(Right(was)));
    case End(low, high) => HoldsElsewhere(a, b, low, Sorted(was), low, high);
  }

  lemma BeginGood(was: seq<Item>, a: seq<Item>, t: Task, t': Task)
    requires t.Begin? && Good(was, a, t) && TaskStep(a, t, a, t')
    ensures Good(was, a, t')
  {
  }

  lemma EndHolds(was: seq<Item>, a: seq<Item>, t: Task)
    requires t.End? && Good(was, a, t)
    ensures Holds(a, t.low, Sorted(was))
  {
  }

  lemma JoinGood(was: seq<Item>, a: seq<Item>, t: Task)
    requires t.Wait? && Nested(t) && Good(was, a, t) && t.left.End? && t.right.End?
    ensures Good(was, a, Copy(t.low, t.high, [], []))
  {
    var sl, sr := Sorted(Left(was)), Sorted(Right(was));
    EndHolds(Left(was), a, t.left);
    EndHolds(Right(was), a, t.right);
    assert Copied(a, t.low, Mid(t.low, t.high), sl, sr, [], []);
  }

  lemma CopyOn(a: seq<Item>, low: int, mid: int, sl: seq<Item>, sr: seq<Item>, l: seq<Item>, r: seq<Item>)
    requires Copied(a, low, mid, sl, sr, l, r)
    ensures if |l| < |sl| then Copied(a, low, mid, sl, sr, l + [a[low + |l|]], r)
            else if |r| < |sr| then Copied(a, low, mid, sl, sr, l, r + [a[mid + 1 + |r|]])
            else Placed(a, low, sl, sr, l, r, 0, 0)
  {
    assert |l| == |sl| ==> l == sl;
    assert |r| == |sr| ==> r == sr;
    assert l[0..] == l && r[0..] == r && Merged(l, r)[0..] == Merged(l, r);
  }

  lemma CopyGood(was: seq<Item>, a: seq<Item>, t: Task, t': Task)
    requires t.Copy? && Good(was, a, t) && CopyStep(a, t, t')
    ensures Good(was, a, t')
  {
    CopyOn(a, t.low, Mid(t.low, t.high), Sorted(Left(was)), Sorted(Right(was)), t.l, t.r);
  }

  lemma Extends(a: seq<Item>, low: int, m: seq<Item>, k: nat)
    requires k < |m| && Holds(a, low, m[..k]) && low + |m| <= |a|
    ensures Holds(a[low + k := m[k]], low, m[..k + 1])
  {
  }

  /** A write puts the next item of the merge in its place. */
  lemma WritesNext(a: seq<Item>, t: Task, a': seq<Item>, t': Task)
    requires t.Place? && Remains(t.l, t.r, t.i, t.j) && PlaceStep(a, t, a', t') && t'.Place?
    ensures var k := t.i + t.j;
            && k < |t.l| + |t.r| && 0 <= t.low + k < |a| && a' == a[t.low + k := Merged(t.l, t.r)[k]]
            && t'.i + t'.j == k + 1 && Remains(t.l, t.r, t'.i, t'.j)
            && t'.l == t.l && t'.r == t.r && t'.low == t.low && t'.high == t.high
  {
    RemainsKept(t.l, t.r, t.i, t.j);
  }

  lemma PlacedNext(a: seq<Item>, low: int, sl: seq<Item>, sr: seq<Item>, l: seq<Item>, r: seq<Item>, i: nat, j: nat,
                   a': seq<Item>, i': nat, j': nat)
    requires Placed(a, low, sl, sr, l, r, i, j) && low + |l| + |r| <= |a| && i + j < |l| + |r|
    requires a' == a[low + i + j := Merged(l, r)[i + j]]
    requires i' + j' == i + j + 1 && Remains(l, r, i', j')
    ensures Placed(a', low, sl, sr, l, r, i', j')
  {
    Extends(a, low, Merged(l, r), i + j);
  }

  lemma PlaceOn(a: seq<Item>, t: Task, a': seq<Item>, t': Task, sl: seq<Item>, sr: seq<Item>)
    requires t.Place? && Placed(a, t.low, sl, sr, t.l, t.r, t.i, t.j) && t.low + |t.l| + |t.r| <= |a|
    requires PlaceStep(a, t, a', t') && t'.Place?
    ensures Placed(a', t'.low, sl, sr, t'.l, t'.r, t'.i, t'.j)
    ensures t'.low == t.low && t'.high == t.high && |a'| == |a|
  {
    WritesNext(a, t, a', t');
    PlacedNext(a, t.low, sl, sr, t.l, t.r, t.i, t.j, a', t'.i, t'.j);
  }

  lemma PlaceGood(was: seq<Item>, a: seq<Item>, t: Task, a': seq<Item>, t': Task)
    requires t.Place? && Fitting(t) && Good(was, a, t) && PlaceStep(a, t, a', t') && t'.Place?
    ensures Good(was, a', t')
  {
    PlaceOn(a, t, a', t', Sorted(Left(was)), Sorted(Right(was)));
  }

  lemma EndGood(was: seq<Item>, a: seq<Item>, t: Task)
    requires t.Place? && Good(was, a, t) && t.i == |t.l| && t.j == |t.r|
    ensures Good(was, a, End(t.low, t.high))
  {
    var m := Merged(t.l, t.r);
    assert m[..t.i + t.j] == m;
  }

  /** Every step of every thread makes progress towards the sorted range. */
  lemma {:induction false} StepGood(was: seq<Item>, a: seq<Item>, t: Task, a': seq<Item>, t': Task)
    requires Nested(t) && Fitting(t) && Good(was, a, t) && TaskStep(a, t, a', t')
    ensures Good(was, a', t')
    decreases t
  {
    match t
    case Begin(_, _) => BeginGood(was, a, t, t');
    case Wait(_, _, left, right) =>
      if LeftStep(a, t, a', t') {
        StepGood(Left(was), a, left, a', t'.left);
        WritesOwnRange(a, left, a', t'.left);
        GoodElsewhere(Right(was), a, a', right);
      } else if RightStep(a, t, a', t') {
        StepGood(Right(was), a, right, a', t'.right);
        WritesOwnRange(a, right, a', t'.right);
        GoodElsewhere(Left(was), a, a', left);
      } else {
        JoinGood(was, a, t);
      }
    case Copy(_, _, _, _) => CopyGood(was, a, t, t');
    case Place(_, _, _, _, _, _) =>
      if t'.Place? {
        PlaceGood(was, a, t, a', t');
      } else {
        EndGood(was, a, t);
      }
  }

  // ---- Progress and termination ------------------------------------------------------------------------

  /** A thread that has not ended has a step, or one of its children has. */
  lemma {:induction false} SomeStep(was: seq<Item>, a: seq<Item>, t: Task) returns (a': seq<Item>, t': Task)
    requires Nested(t) && Fitting(t) && Good(was, a, t) && !t.End?
    ensures TaskStep(a, t, a', t')
    decreases t
  {
    a' := a;
    match t
    case Begin(low, high) =>
      t' := if low < high then Wait(low, high, Begin(low, Mid(low, high)), Begin(Mid(low, high) + 1, high))
          else End(low, high);
    case Wait(low, high, left, right) =>
      if !left.End? {
        a', t' := SomeStep(Left(was), a, left);
        t' := Wait(low, high, t', right);
        assert LeftStep(a, t, a', t');
      } else if !right.End? {
        a', t' := SomeStep(Right(was), a, right);
        t' := Wait(low, high, left, t');
        assert RightStep(a, t, a', t');
      } else {
        t' := Copy(low, high, [], []);
      }
    case Copy(_, _, _, _) => t' := CopyMoves(a, t);
    case Place(_, _, _, _, _, _) => a', t' := PlaceMoves(a, t);
  }

  lemma CopyMoves(a: seq<Item>, t: Task) returns (t': Task)
    requires t.Copy? && 0 <= t.low < t.high < |a|
    ensures CopyStep(a, t, t')
  {
    var low, mid, high, l, r := t.low, Mid(t.low, t.high), t.high, t.l, t.r;
    t' := if |l| < mid - low + 1 then Copy(low, high, l + [a[low + |l|]], r)
          else if |r| < high - mid then Copy(low, high, l, r + [a[mid + 1 + |r|]])
          else Place(low, high, l, r, 0, 0);
  }

  lemma PlaceMoves(a: seq<Item>, t: Task) returns (a': seq<Item>, t': Task)
    requires t.Place? && t.i <= |t.l| && t.j <= |t.r| && 0 <= t.low && t.low + |t.l| + |t.r| <= |a|
    ensures PlaceStep(a, t, a', t')
  {
    var low, high, l, r, i, j := t.low, t.high, t.l, t.r, t.i, t.j;
    if i == |l| && j == |r| {
      a', t' := a, End(low, high);
    } else if FromLeft(l, r, i, j) {
      a', t' := a[low + i + j := l[i]], Place(low, high, l, r, i + 1, j);
    } else {
      a', t' := a[low + i + j := r[j]], Place(low, high, l, r, i, j + 1);
    }
  }

  /** The number of steps that the items from low to high take. */
  function Total(low: int, high: int): (steps: int)
    ensures steps >= 1
    decreases high - low
  {
    if low >= high then 1
    else Total(low, Mid(low, high)) + Total(Mid(low, high) + 1, high) + 2 * (high - low + 1) + 4
  }

  function Work(t: Task): int {
    var n := t.high - t.low + 1;
    match t
    case Begin(low, high) => Total(low, high)
    case Wait(_, _, left, right) => Work(left) + Work(right) + 2 * n + 3
    case Copy(_, _, l, r) => 2 * n + 2 - |l| - |r|
    case Place(_, _, _, _, i, j) => n + 1 - i - j
    case End(_, _) => 0
  }

  lemma ForkDrops(low: int, high: int)
    requires low < high
    ensures Work(Wait(low, high, Begin(low, Mid(low, high)), Begin(Mid(low, high) + 1, high))) < Work(Begin(low, high))
  {
  }

  lemma LoopDrops(a: seq<Item>, t: Task, a': seq<Item>, t': Task)
    requires Fitting(t) && (t.Copy? || t.Place?) && TaskStep(a, t, a', t')
    ensures Work(t') < Work(t)
  {
  }

  lemma {:induction false} WorkDrops(a: seq<Item>, t: Task, a': seq<Item>, t': Task)
    requires Nested(t) && Fitting(t) && TaskStep(a, t, a', t')
    ensures Work(t') < Work(t)
    decreases t
  {
    match t
    case Begin(low, high) =>
      if low < high {
        ForkDrops(low, high);
      }
    case Wait(_, _, left, right) =>
      if LeftStep(a, t, a', t') {
        WorkDrops(a, left, a', t'.left);
      } else if RightStep(a, t, a', t') {
        WorkDrops(a, right, a', t'.right);
      }
    case _ => LoopDrops(a, t, a', t');
  }

  lemma {:induction false} WorkRemains(was: seq<Item>, a: seq<Item>, t: Task)
    requires Nested(t) && Fitting(t) && Good(was, a, t)
    ensures Work(t) >= 0
    decreases t
  {
    if t.Wait? {
      WorkRemains(Left(was), a, t.left);
      WorkRemains(Right(was), a, t.right);
    }
  }

  // ---- Whole runs --------------------------------------------------------------------------------------

  ghost predicate Inv(arr: seq<Item>, n: nat, s: State) {
    && n <= |arr| && Nested(s.root) && Fitting(s.root) && s.root.low == 0 && s.root.high == n - 1
    && SameOutside(arr, s.arr, 0, n - 1) && Good(arr[..n], s.arr, s.root)
  }

  lemma InitInv(arr: seq<Item>, n: nat, s: State)
    requires Init(arr, n, s)
    ensures Inv(arr, n, s) && Work(s.root) == Total(0, n - 1)
  {
  }

  lemma NextInv(arr: seq<Item>, n: nat, s: State, s': State)
    requires Inv(arr, n, s) && Next(s, s')
    ensures Inv(arr, n, s') && Work(s'.root) < Work(s.root)
  {
    WritesOwnRange(s.arr, s.root, s'.arr, s'.root);
    StepGood(arr[..n], s.arr, s.root, s'.arr, s'.root);
    WorkDrops(s.arr, s.root, s'.arr, s'.root);
  }

  lemma RunKeeps(arr: seq<Item>, n: nat, run: seq<State>, i: nat)
    requires Run(arr, n, run) && i < |run|
    ensures Inv(arr, n, run[i]) && i <= Total(0, n - 1)
  {
    var init, inv, work := (s: State) => Init(arr, n, s), (s: State) => Inv(arr, n, s), (s: State) => Work(s.root);
    forall s | init(s) ensures inv(s) && work(s) == Total(0, n - 1) {
      InitInv(arr, n, s);
    }
    forall s, s' | inv(s) && Next(s, s') ensures inv(s') && work(s') < work(s) {
      NextInv(arr, n, s, s');
    }
    forall s | inv(s) ensures work(s) >= 0 {
      WorkRemains(arr[..n], s.arr, s.root);
    }
    Invariance(init, Next, inv, run, i);
    Termination(init, Next, inv, work, run, i);
  }

  /** In every state of every run, cells behind the first n are unchanged, somebody can move until the
      root has ended, and no run has more than Total(0, n - 1) steps. */
  lemma EveryState(arr: seq<Item>, n: nat, run: seq<State>, i: nat)
    requires Run(arr, n, run) && i < |run|
    ensures Inv(arr, n, run[i]) && i <= Total(0, n - 1)
    ensures run[i].root.End? || exists s' :: Next(run[i], s')
  {
    var s := run[i];
    RunKeeps(arr, n, run, i);
    if !s.root.End? {
      var a', t' := SomeStep(arr[..n], s.arr, s.root);
      assert Next(s, State(a', t'));
    }
  }

  /** However the threads interleave, the array ends up the same: the first n items stably sorted, the
      rest as before. */
  lemma FinalState(arr: seq<Item>, n: nat, run: seq<State>)
    requires Run(arr, n, run) && run[|run| - 1].root.End?
    ensures run[|run| - 1].arr == Sorted(arr[..n]) + arr[n..]
    ensures StablySorted(arr[..n], Sorted(arr[..n]))
  {
    var s := run[|run| - 1];
    EveryState(arr, n, run, |run| - 1);
    SortedIsStable(arr[..n]);
    EndHolds(arr[..n], s.arr, s.root);
    Assembled(arr, n, s.arr, Sorted(arr[..n]));
  }

  lemma Assembled(arr: seq<Item>, n: nat, a: seq<Item>, part: seq<Item>)
    requires n <= |arr| && |part| == n && Holds(a, 0, part) && SameOutside(arr, a, 0, n - 1)
    ensures a == part + arr[n..]
  {
  }
}
