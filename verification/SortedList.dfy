/** The sorted linked list shared by threads that call Member, Insert and Delete under one mutex. */
module SortedList {
  import opened Runs
  import opened Sequences
  import opened Sums

  class Node {
    var data: int
    var next: Node?

    constructor (data: int, next: Node?)
      ensures this.data == data && this.next == next
    {
      this.data, this.next := data, next;
    }
  }

  predicate Increasing(values: seq<int>) { forall i, j | 0 <= i < j < |values| :: values[i] < values[j] }

  function Elements(values: seq<int>): set<int> { set v | v in values }

  /** Where the walk for a value ends: behind the values below it. */
  function Position(values: seq<int>, value: int): (p: nat)
    ensures p <= |values|
  {
    if values == [] || values[0] >= value then 0 else 1 + Position(values[1..], value)
  }

  function WithValue(values: seq<int>, value: int): seq<int> {
    if value in values then values else Spliced(values, value, Position(values, value))
  }

  function WithoutValue(values: seq<int>, value: int): seq<int> {
    var p := Position(values, value);
    if p < |values| && values[p] == value then values[..p] + values[p + 1..] else values
  }

  lemma {:induction false} PositionIs(values: seq<int>, value: int, i: nat)
    requires i <= |values| && (forall k | 0 <= k < i :: values[k] < value) && (i < |values| ==> values[i] >= value)
    ensures Position(values, value) == i
  {
    if i > 0 {
      PositionIs(values[1..], value, i - 1);
    }
  }

  class List {
    var head: Node?
    ghost var spine: seq<Node>
    ghost var values: seq<int>

    /** spine lists the nodes in order and values what they hold: the list is acyclic and ends in null. */
    ghost predicate Linked()
      reads this, spine
    {
      && head == Nth(spine, 0, null)
      && (forall i {:trigger spine[i].next} | 0 <= i < |spine| :: spine[i].next == Nth(spine, i + 1, null))
      && Distinct(spine)
      && |values| == |spine| && (forall i {:trigger values[i]} | 0 <= i < |spine| :: spine[i].data == values[i])
    }

    ghost predicate Valid()
      reads this, spine
    {
      Linked() && Increasing(values)
    }

    constructor ()
      ensures Valid() && values == []
    {
      head, spine, values := null, [], [];
    }

    method Member(value: int) returns (r: int)
      requires Valid()
      ensures r == if value in Elements(values) then 1 else 0
    {
      var curr := head;
      ghost var i := 0;
      while curr != null && curr.data < value
        invariant i <= |spine| && curr == Nth(spine, i, null)
        invariant forall k | 0 <= k < i :: values[k] < value
        decreases |spine| - i
      {
        curr := curr.next;
        i := i + 1;
      }
      if i < |spine| {
        assert spine[i].data == values[i];
      }
      if curr == null || curr.data > value {
        return 0;
      } else {
        return 1;
      }
    }

    /** The walk that Insert and Delete share: curr is the first node not below value, prev the one before. */
    method Find(value: int) returns (prev: Node?, curr: Node?, ghost i: nat)
      requires Valid()
      ensures i <= |spine| && curr == Nth(spine, i, null) && prev == (if i == 0 then null else spine[i - 1])
      ensures forall k | 0 <= k < i :: values[k] < value
      ensures forall k | i <= k < |values| :: values[k] >= value
      ensures curr != null ==> curr.data == values[i]
    {
      curr, prev, i := head, null, 0;
      while curr != null && curr.data < value
        invariant i <= |spine| && curr == Nth(spine, i, null) && prev == (if i == 0 then null else spine[i - 1])
        invariant forall k | 0 <= k < i :: values[k] < value
        decreases |spine| - i
      {
        prev := curr;
        curr := curr.next;
        i := i + 1;
      }
      if i < |spine| {
        assert spine[i].data == values[i];
      }
    }

    /** The relinking in Insert: a new node between prev and curr. */
    method LinkIn(value: int, prev: Node?, curr: Node?, ghost i: nat)
      requires Linked() && i <= |spine| && curr == Nth(spine, i, null)
          && prev == (if i == 0 then null else spine[i - 1])
      modifies this, spine
      ensures Linked() && values == Spliced(old(values), value, i)
    {
      var temp := new Node(value, curr);
      if prev == null {
        head := temp;
      } else {
        prev.next := temp;
      }
      SplicedAt(values, value, i);
      values := Spliced(values, value, i);
      spine := Splice(spine, temp, i);
    }

    method Insert(value: int) returns (r: int)
      requires Valid()
      modifies this, spine
      ensures Valid() && Elements(values) == old(Elements(values)) + {value}
      ensures values == WithValue(old(values), value)
      ensures r == if value in old(values) then 0 else 1
    {
      var prev, curr;
      ghost var i;
      prev, curr, i := Find(value);
      PositionIs(values, value, i);
      if curr == null || curr.data > value {
        Between(values, value, i);
        LinkIn(value, prev, curr, i);
        return 1;
      } else {
        assert values[i] in values;
        return 0;
      }
    }

    /** The relinking in Delete: prev and what follows curr are joined. */
    method Unlink(prev: Node?, curr: Node, ghost i: nat)
      requires Linked() && i < |spine| && curr == spine[i] && prev == (if i == 0 then null else spine[i - 1])
      modifies this, spine
      ensures Linked() && values == old(values)[..i] + old(values)[i + 1..]
    {
      if prev == null {
        head := curr.next;
      } else {
        prev.next := curr.next;
      }
      spine := Cut(spine, i);
      values := Cut(values, i);
    }

    method Delete(value: int) returns (r: int)
      requires Valid()
      modifies this, spine
      ensures Valid() && Elements(values) == old(Elements(values)) - {value}
      ensures values == WithoutValue(old(values), value)
      ensures r == if value in old(values) then 1 else 0
    {
      var prev, curr;
      ghost var i;
      prev, curr, i := Find(value);
      PositionIs(values, value, i);
      if curr != null && curr.data == value {
        assert values[i] in values;
        Without(values, value, i);
        Unlink(prev, curr, i);
        return 1;
      } else {
        return 0;
      }
    }
  }

  lemma SplicedElements(values: seq<int>, value: int, i: nat)
    requires i <= |values|
    ensures Elements(Spliced(values, value, i)) == Elements(values) + {value}
  {
    var longer := Spliced(values, value, i);
    SplicedAt(values, value, i);
    assert longer[i] == value;
    forall v | v in values ensures v in longer {
      var k :| 0 <= k < |values| && values[k] == v;
      assert longer[if k < i then k else k + 1] == v;
    }
  }

  lemma Between(values: seq<int>, value: int, i: nat)
    requires Increasing(values) && i <= |values|
    requires (forall k | 0 <= k < i :: values[k] < value) && forall k | i <= k < |values| :: values[k] > value
    ensures Increasing(Spliced(values, value, i)) && value !in values
    ensures Elements(Spliced(values, value, i)) == Elements(values) + {value}
  {
    SplicedAt(values, value, i);
    SplicedElements(values, value, i);
  }

  lemma Without(values: seq<int>, value: int, i: nat)
    requires Increasing(values) && i < |values| && values[i] == value
    ensures Increasing(values[..i] + values[i + 1..])
    ensures Elements(values[..i] + values[i + 1..]) == Elements(values) - {value}
  {
    var shorter := values[..i] + values[i + 1..];
    forall v | v in values && v != value ensures v in shorter {
      var k :| 0 <= k < |values| && values[k] == v;
      assert shorter[if k < i then k else k - 1] == v;
    }
  }

  /** An increasing list is as long as its set of elements is large. */
  lemma {:induction false} LengthIsSize(values: seq<int>)
    requires Increasing(values)
    ensures |Elements(values)| == |values|
  {
    if values != [] {
      var rest, last := values[..|values| - 1], values[|values| - 1];
      assert values == rest + [last];
      LengthIsSize(rest);
      assert last !in rest;
      assert Elements(values) == Elements(rest) + {last};
    }
  }

  // ---- Threads that call the list -----------------------------------------------------------------

  /** How many calls of each kind a thread has still to make. */
  datatype Quota = Quota(members: nat, inserts: nat, deletes: nat)

  /** The number decides the operation: Member, Insert or Delete by its remainder modulo 3. */
  datatype Call = Call(thread: nat, number: nat)

  /** One call under the mutex is one step. inserted and deleted count the calls that returned 1; calls records all
      calls in order. */
  datatype State = State(values: seq<int>, threads: seq<Quota>, inserted: nat, deleted: nat, calls: seq<Call>)

  /** One round of Thread_operation: the operation follows from the random number, and is skipped when
      the thread has made all its calls of that kind. */
  function Round(s: State, t: nat, number: nat): State
    requires t < |s.threads|
  {
    var q, calls := s.threads[t], s.calls + [Call(t, number)];
    if number % 3 == 0 && q.members > 0 then
      s.(threads := s.threads[t := q.(members := q.members - 1)], calls := calls)
    else if number % 3 == 1 && q.inserts > 0 then
      s.(threads := s.threads[t := q.(inserts := q.inserts - 1)], values := WithValue(s.values, number),
         inserted := s.inserted + (if number in s.values then 0 else 1), calls := calls)
    else if number % 3 == 2 && q.deletes > 0 then
      s.(threads := s.threads[t := q.(deletes := q.deletes - 1)], values := WithoutValue(s.values, number),
         deleted := s.deleted + (if number in s.values then 1 else 0), calls := calls)
    else s
  }

  ghost predicate Next(s: State, s': State) {
    exists t: nat, number: nat :: t < |s.threads| && s.threads[t] != Quota(0, 0, 0) && s' == Round(s, t, number)
  }

  ghost predicate Run(initial: seq<int>, n: nat, quota: Quota, run: seq<State>) {
    IsRun((s: State) => s == State(initial, seq(n, _ => quota), 0, 0, []), Next, run)
  }

  function InsertsLeft(q: Quota): int { q.inserts }

  function DeletesLeft(q: Quota): int { q.deletes }

  /** The list is strictly increasing and its length accounts for the successful calls. */
  ghost predicate Balanced(initial: seq<int>, n: nat, quota: Quota, s: State) {
    && Increasing(s.values) && |s.values| == |initial| + s.inserted - s.deleted
    && s.inserted + Sum(InsertsLeft, s.threads) <= n * quota.inserts
    && s.deleted + Sum(DeletesLeft, s.threads) <= n * quota.deletes
    && |s.threads| == n
  }

  /** In an increasing list the values behind the position are not below the value, and it holds the value
      exactly if the first of them is it. */
  lemma {:induction false} AtPosition(values: seq<int>, value: int)
    requires Increasing(values)
    ensures var p := Position(values, value);
            && (forall k | 0 <= k < p :: values[k] < value) && (forall k | p <= k < |values| :: values[k] >= value)
            && (value in values <==> p < |values| && values[p] == value)
  {
    if values != [] && values[0] < value {
      AtPosition(values[1..], value);
      var p := Position(values[1..], value);
      forall k | 0 <= k < |values| ensures k < p + 1 <==> values[k] < value {
        assert k > 0 ==> values[k] == values[1..][k - 1];
      }
      assert values == [values[0]] + values[1..];
    }
  }

  /** The two updates keep the list increasing and change its length by the result of the call. */
  lemma UpdatesKeep(values: seq<int>, value: int)
    requires Increasing(values)
    ensures Increasing(WithValue(values, value)) && Increasing(WithoutValue(values, value))
    ensures |WithValue(values, value)| == |values| + if value in values then 0 else 1
    ensures |WithoutValue(values, value)| == |values| - if value in values then 1 else 0
  {
    var p := Position(values, value);
    AtPosition(values, value);
    if value in values {
      Without(values, value, p);
    } else {
      Between(values, value, p);
      SplicedAt(values, value, p);
    }
  }

  lemma RoundKeeps(initial: seq<int>, n: nat, quota: Quota, s: State, t: nat, number: nat)
    requires Balanced(initial, n, quota, s) && t < |s.threads|
    ensures Balanced(initial, n, quota, Round(s, t, number))
  {
    var s' := Round(s, t, number);
    UpdatesKeep(s.values, number);
    SumUpdate(InsertsLeft, s.threads, t, s'.threads[t]);
    SumUpdate(DeletesLeft, s.threads, t, s'.threads[t]);
    assert s'.threads == s.threads[t := s'.threads[t]];
  }

  /** For any interleaving of the calls on an increasing list: it stays increasing, its length is the
      initial one plus the successful inserts minus the successful deletes, and no more calls succeed than
      the quotas allow. */
  lemma LengthCountsCalls(initial: seq<int>, n: nat, quota: Quota, run: seq<State>, i: nat)
    requires Increasing(initial) && Run(initial, n, quota, run) && i < |run|
    ensures Balanced(initial, n, quota, run[i])
    ensures |initial| - n * quota.deletes <= |run[i].values| <= |initial| + n * quota.inserts
  {
    var init := (s: State) => s == State(initial, seq(n, _ => quota), 0, 0, []);
    forall s: State | init(s) ensures Balanced(initial, n, quota, s) {
      SumBounds(InsertsLeft, s.threads, quota.inserts, quota.inserts);
      SumBounds(DeletesLeft, s.threads, quota.deletes, quota.deletes);
    }
    forall s, s' | Balanced(initial, n, quota, s) && Next(s, s') ensures Balanced(initial, n, quota, s') {
      var t: nat, number: nat :| t < |s.threads| && s.threads[t] != Quota(0, 0, 0) && s' == Round(s, t, number);
      RoundKeeps(initial, n, quota, s, t, number);
    }
    Invariance(init, Next, (s: State) => Balanced(initial, n, quota, s), run, i);
    SumNonNegative(InsertsLeft, run[i].threads);
    SumNonNegative(DeletesLeft, run[i].threads);
  }

  // ---- How many calls -----------------------------------------------------------------------------------

  /** How many calls of one kind a thread has made. */
  function Made(t: nat, kind: int, calls: seq<Call>): nat {
    if calls == [] then 0
    else
      var last := calls[|calls| - 1];
      Made(t, kind, calls[..|calls| - 1]) + if last.thread == t && last.number % 3 == kind then 1 else 0
  }

  lemma MadeNext(t: nat, kind: int, calls: seq<Call>, c: Call)
    ensures Made(t, kind, calls + [c]) == Made(t, kind, calls) + if c.thread == t && c.number % 3 == kind then 1 else 0
  {
    assert (calls + [c])[..|calls|] == calls;
  }

  /** The calls a thread has made and those it has still to make are its quota, kind by kind. */
  ghost predicate OnQuota(quota: Quota, t: nat, left: Quota, calls: seq<Call>) {
    && Made(t, 0, calls) + left.members == quota.members
    && Made(t, 1, calls) + left.inserts == quota.inserts
    && Made(t, 2, calls) + left.deletes == quota.deletes
  }

  ghost predicate AllOnQuota(n: nat, quota: Quota, s: State) {
    |s.threads| == n && forall t: nat | t < n :: OnQuota(quota, t, s.threads[t], s.calls)
  }

  lemma RoundOnQuota(n: nat, quota: Quota, s: State, t: nat, number: nat)
    requires AllOnQuota(n, quota, s) && t < n
    ensures AllOnQuota(n, quota, Round(s, t, number))
  {
    forall u: nat | u < n ensures OnQuota(quota, u, Round(s, t, number).threads[u], Round(s, t, number).calls) {
      assert OnQuota(quota, u, s.threads[u], s.calls);
      RoundCalls(s, t, number, u);
      CallOnQuota(quota, u, s.threads[u], s.calls, Call(t, number));
    }
  }

  function Left(kind: int, q: Quota): nat {
    if kind == 0 then q.members else if kind == 1 then q.inserts else q.deletes
  }

  /** One call fewer of a kind. */
  function Used(kind: int, q: Quota): Quota
    requires Left(kind, q) > 0
  {
    if kind == 0 then Quota(q.members - 1, q.inserts, q.deletes)
    else if kind == 1 then Quota(q.members, q.inserts - 1, q.deletes)
    else Quota(q.members, q.inserts, q.deletes - 1)
  }

  /** A round makes a call exactly if the thread has a call left of the kind that the number asks for, and takes one
      off that kind of that thread. */
  lemma RoundCalls(s: State, t: nat, number: nat, u: nat)
    requires t < |s.threads| && u < |s.threads|
    ensures var s', kind := Round(s, t, number), number % 3;
            if Left(kind, s.threads[t]) > 0 then
              && s'.calls == s.calls + [Call(t, number)]
              && s'.threads[u] == if u == t then Used(kind, s.threads[u]) else s.threads[u]
            else s'.calls == s.calls && s'.threads[u] == s.threads[u]
  {
  }

  lemma CallOnQuota(quota: Quota, u: nat, q: Quota, calls: seq<Call>, c: Call)
    requires OnQuota(quota, u, q, calls)
    ensures c.thread != u ==> OnQuota(quota, u, q, calls + [c])
    ensures c.thread == u && Left(c.number % 3, q) > 0 ==> OnQuota(quota, u, Used(c.number % 3, q), calls + [c])
  {
    MadeNext(u, 0, calls, c);
    MadeNext(u, 1, calls, c);
    MadeNext(u, 2, calls, c);
  }

  /** In every state of every run each thread has made the calls of its quota but for those it has left; when it
      has none left it has made exactly its quota. */
  lemma QuotasAreMet(initial: seq<int>, n: nat, quota: Quota, run: seq<State>, i: nat)
    requires Run(initial, n, quota, run) && i < |run|
    ensures |run[i].threads| == n && forall t: nat | t < n :: OnQuota(quota, t, run[i].threads[t], run[i].calls)
    ensures forall t: nat | t < n && run[i].threads[t] == Quota(0, 0, 0) ::
              && Made(t, 0, run[i].calls) == quota.members
              && Made(t, 1, run[i].calls) == quota.inserts && Made(t, 2, run[i].calls) == quota.deletes
  {
    var init := (s: State) => s == State(initial, seq(n, _ => quota), 0, 0, []);
    forall s, s' | AllOnQuota(n, quota, s) && Next(s, s') ensures AllOnQuota(n, quota, s') {
      var t: nat, number: nat :| t < |s.threads| && s.threads[t] != Quota(0, 0, 0) && s' == Round(s, t, number);
      RoundOnQuota(n, quota, s, t, number);
    }
    Invariance(init, Next, (s: State) => AllOnQuota(n, quota, s), run, i);
    forall t: nat | t < n ensures OnQuota(quota, t, run[i].threads[t], run[i].calls) {
    }
  }

  // ---- What the interleaving does not decide ------------------------------------------------------------

  /** A set of values is what it was at the start or was given, without what was taken. What is given and what
      is taken differ modulo 3, so that neither depends on the order. */
  ghost predicate Account(start: set<int>, now: set<int>, given: set<int>, taken: set<int>,
                          inserted: nat, deleted: nat)
  {
    && (forall x | x in given :: x % 3 == 1) && (forall x | x in taken :: x % 3 == 2)
    && now == start + given - taken
    && inserted == |given - start| && deleted == |taken * start|
  }

  lemma Gives(start: set<int>, now: set<int>, given: set<int>, taken: set<int>, inserted: nat, deleted: nat, x: int)
    requires Account(start, now, given, taken, inserted, deleted) && x % 3 == 1
    ensures Account(start, now + {x}, given + {x}, taken, inserted + if x in now then 0 else 1, deleted)
  {
    assert x !in taken;
    if x in start {
      assert given + {x} - start == given - start;
    } else if x in given {
      assert x in now && given + {x} == given;
    } else {
      assert given + {x} - start == given - start + {x};
    }
  }

  lemma Takes(start: set<int>, now: set<int>, given: set<int>, taken: set<int>, inserted: nat, deleted: nat, x: int)
    requires Account(start, now, given, taken, inserted, deleted) && x % 3 == 2
    ensures Account(start, now - {x}, given, taken + {x}, inserted, deleted + if x in now then 1 else 0)
  {
    assert x !in given;
    if x in taken {
      assert x !in now && taken + {x} == taken;
    } else if x in start {
      assert (taken + {x}) * start == taken * start + {x};
    } else {
      assert (taken + {x}) * start == taken * start;
    }
  }

  /** The numbers that calls of one kind were made with. */
  function Asked(kind: int, calls: seq<Call>): set<int> { set c | c in calls && c.number % 3 == kind :: c.number }

  lemma AskedNext(kind: int, calls: seq<Call>, c: Call)
    ensures Asked(kind, calls + [c]) == Asked(kind, calls) + if c.number % 3 == kind then {c.number} else {}
  {
    assert forall d :: d in calls + [c] <==> d in calls || d == c;
    forall x ensures x in Asked(kind, calls + [c]) <==>
                       x in Asked(kind, calls) || (c.number % 3 == kind && x == c.number)
    {
      if c.number % 3 == kind && x == c.number {
        assert c in calls + [c];
      }
    }
  }

  /** The list and the successes follow from the calls: 1 stands for Insert, 2 for Delete. */
  ghost predicate Decided(initial: seq<int>, s: State) {
    && Increasing(s.values)
    && Account(Elements(initial), Elements(s.values), Asked(1, s.calls), Asked(2, s.calls), s.inserted, s.deleted)
  }

  lemma ElementsAfter(values: seq<int>, value: int)
    requires Increasing(values)
    ensures Elements(WithValue(values, value)) == Elements(values) + {value}
    ensures Elements(WithoutValue(values, value)) == Elements(values) - {value}
  {
    var p := Position(values, value);
    AtPosition(values, value);
    if value in values {
      Without(values, value, p);
    } else {
      SplicedElements(values, value, p);
    }
  }

  lemma AskedAll(calls: seq<Call>, c: Call)
    ensures Asked(1, calls + [c]) == Asked(1, calls) + if c.number % 3 == 1 then {c.number} else {}
    ensures Asked(2, calls + [c]) == Asked(2, calls) + if c.number % 3 == 2 then {c.number} else {}
  {
    AskedNext(1, calls, c);
    AskedNext(2, calls, c);
  }

  lemma InsertDecided(initial: seq<int>, s: State, s': State, c: Call)
    requires Decided(initial, s) && c.number % 3 == 1 && s'.calls == s.calls + [c]
    requires s'.values == WithValue(s.values, c.number) && s'.deleted == s.deleted
    requires s'.inserted == s.inserted + if c.number in s.values then 0 else 1
    ensures Decided(initial, s')
  {
    ElementsAfter(s.values, c.number);
    UpdatesKeep(s.values, c.number);
    AskedAll(s.calls, c);
    assert c.number in s.values <==> c.number in Elements(s.values);
    Gives(Elements(initial), Elements(s.values), Asked(1, s.calls), Asked(2, s.calls), s.inserted, s.deleted, c.number);
  }

  lemma DeleteDecided(initial: seq<int>, s: State, s': State, c: Call)
    requires Decided(initial, s) && c.number % 3 == 2 && s'.calls == s.calls + [c]
    requires s'.values == WithoutValue(s.values, c.number) && s'.inserted == s.inserted
    requires s'.deleted == s.deleted + if c.number in s.values then 1 else 0
    ensures Decided(initial, s')
  {
    ElementsAfter(s.values, c.number);
    UpdatesKeep(s.values, c.number);
    AskedAll(s.calls, c);
    assert c.number in s.values <==> c.number in Elements(s.values);
    Takes(Elements(initial), Elements(s.values), Asked(1, s.calls), Asked(2, s.calls), s.inserted, s.deleted, c.number);
  }

  lemma MemberDecided(initial: seq<int>, s: State, s': State, c: Call)
    requires Decided(initial, s) && c.number % 3 == 0 && s'.calls == s.calls + [c]
    requires s'.values == s.values && s'.inserted == s.inserted && s'.deleted == s.deleted
    ensures Decided(initial, s')
  {
    AskedAll(s.calls, c);
  }

  lemma RoundDecided(initial: seq<int>, s: State, t: nat, number: nat)
    requires Decided(initial, s) && t < |s.threads|
    ensures Decided(initial, Round(s, t, number))
  {
    var q, s', c := s.threads[t], Round(s, t, number), Call(t, number);
    if number % 3 == 0 && q.members > 0 {
      MemberDecided(initial, s, s', c);
    } else if number % 3 == 1 && q.inserts > 0 {
      InsertDecided(initial, s, s', c);
    } else if number % 3 == 2 && q.deletes > 0 {
      DeleteDecided(initial, s, s', c);
    }
  }

  /** In every state of every run, the list and the number of successful calls follow from the initial list and
      the numbers that the calls were made with, whatever the interleaving. */
  lemma CallsDecide(initial: seq<int>, n: nat, quota: Quota, run: seq<State>, i: nat)
    requires Increasing(initial) && Run(initial, n, quota, run) && i < |run|
    ensures Decided(initial, run[i])
  {
    var init := (s: State) => s == State(initial, seq(n, _ => quota), 0, 0, []);
    forall s: State | init(s) ensures Decided(initial, s) {
    }
    forall s, s' | Decided(initial, s) && Next(s, s') ensures Decided(initial, s') {
      var t: nat, number: nat :| t < |s.threads| && s.threads[t] != Quota(0, 0, 0) && s' == Round(s, t, number);
      RoundDecided(initial, s, t, number);
    }
    Invariance(init, Next, (s: State) => Decided(initial, s), run, i);
  }

  /** Increasing lists with the same values are the same. */
  lemma {:induction false} IncreasingUnique(xs: seq<int>, ys: seq<int>)
    requires Increasing(xs) && Increasing(ys) && Elements(xs) == Elements(ys)
    ensures xs == ys
  {
    LengthIsSize(xs);
    LengthIsSize(ys);
    if xs != [] {
      var k := |xs| - 1;
      LastIsLargest(xs, ys);
      LastIsLargest(ys, xs);
      assert Elements(xs[..k]) == Elements(xs) - {xs[k]} by { WithoutLast(xs); }
      assert Elements(ys[..k]) == Elements(ys) - {ys[k]} by { WithoutLast(ys); }
      IncreasingUnique(xs[..k], ys[..k]);
      assert xs == xs[..k] + [xs[k]] && ys == ys[..k] + [ys[k]];
    }
  }

  lemma LastIsLargest(xs: seq<int>, ys: seq<int>)
    requires xs != [] && ys != [] && Increasing(ys) && Elements(xs) == Elements(ys)
    ensures xs[|xs| - 1] <= ys[|ys| - 1]
  {
    assert xs[|xs| - 1] in Elements(xs);
    var j :| 0 <= j < |ys| && ys[j] == xs[|xs| - 1];
  }

  lemma WithoutLast(xs: seq<int>)
    requires xs != [] && Increasing(xs)
    ensures Elements(xs[..|xs| - 1]) == Elements(xs) - {xs[|xs| - 1]}
  {
    assert xs == xs[..|xs| - 1] + [xs[|xs| - 1]];
  }

  /** So two runs that made the same calls, in whatever order, end with the same list and the same successes. */
  lemma OrderIrrelevant(initial: seq<int>, n: nat, quota: Quota, run: seq<State>, other: seq<State>)
    requires Increasing(initial) && Run(initial, n, quota, run) && Run(initial, n, quota, other)
    requires Asked(1, run[|run| - 1].calls) == Asked(1, other[|other| - 1].calls)
    requires Asked(2, run[|run| - 1].calls) == Asked(2, other[|other| - 1].calls)
    ensures run[|run| - 1].values == other[|other| - 1].values
    ensures run[|run| - 1].inserted == other[|other| - 1].inserted
    ensures run[|run| - 1].deleted == other[|other| - 1].deleted
  {
    CallsDecide(initial, n, quota, run, |run| - 1);
    CallsDecide(initial, n, quota, other, |other| - 1);
    IncreasingUnique(run[|run| - 1].values, other[|other| - 1].values);
  }
}
