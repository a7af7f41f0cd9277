/** The list of jobs: nodes linked through next, each new job inserted after as many nodes as
    there are jobs with a smaller arrival + duration. */
module JobList {
  import opened Sequences

  datatype Job = Job(user: string, process: char, arrival: int, duration: int, priority: int)

  function Key(j: Job): int { j.arrival + j.duration }

  class Node {
    var data: Job
    var next: Node?

    constructor (data: Job)
      ensures this.data == data && next == null
    {
      this.data, next := data, null;
    }
  }

  /** How many jobs have a key below k. */
  function Below(jobs: seq<Job>, k: int): nat {
    if jobs == [] then 0 else Below(jobs[..|jobs| - 1], k) + if Key(jobs[|jobs| - 1]) < k then 1 else 0
  }

  lemma {:induction false} BelowBound(jobs: seq<Job>, k: int)
    ensures Below(jobs, k) <= |jobs|
  {
    if jobs != [] {
      BelowBound(jobs[..|jobs| - 1], k);
    }
  }

  /** The list after an insertion. */
  function Inserted(jobs: seq<Job>, job: Job): seq<Job> {
    BelowBound(jobs, Key(job));
    Spliced(jobs, job, Below(jobs, Key(job)))
  }

  class JobList {
    var head: Node?
    ghost var spine: seq<Node>
    ghost var jobs: seq<Job>

    /** spine lists the nodes: all different, each linked to the following one, the last to null;
        jobs lists what they hold. */
    ghost predicate Valid()
      reads this, spine
    {
      && head == Nth(spine, 0, null)
      && (forall i {:trigger spine[i].next} | 0 <= i < |spine| :: spine[i].next == Nth(spine, i + 1, null))
      && Distinct(spine)
      && |jobs| == |spine| && (forall i {:trigger spine[i].data} | 0 <= i < |spine| :: spine[i].data == jobs[i])
    }

    constructor ()
      ensures Valid() && jobs == []
    {
      head, spine, jobs := null, [], [];
    }

    method Count() returns (c: nat)
      requires Valid()
      ensures c == |jobs|
    {
      var n := head;
      c := 0;
      while n != null
        invariant c <= |spine| && n == Nth(spine, c, null)
        decreases |spine| - c
      {
        n := n.next;
        c := c + 1;
      }
    }

    /** Insertion at the front. */
    method Add(job: Job)
      requires Valid()
      modifies this
      ensures Valid() && forall n | n in spine :: n in old(spine) || fresh(n)
      ensures jobs == Spliced(old(jobs), job, 0)
    {
      var temp := new Node(job);
      if head == null {
        head := temp;
      } else {
        temp.next := head;
        head := temp;
      }
      spine, jobs := [temp] + spine, Spliced(jobs, job, 0);
    }

    /** The walk of addafter to the nodes on both sides of the insertion point. */
    method Seek(loc: nat) returns (left: Node, right: Node)
      requires Valid() && 2 <= loc <= |jobs|
      ensures left == spine[loc - 2] && right == spine[loc - 1]
    {
      left, right := head, head;
      var i := 1;
      while i < loc
        invariant 1 <= i <= loc
        invariant i > 1 ==> left == spine[i - 2]
        invariant right == spine[i - 1]
      {
        left := right;
        right := right.next;
        i := i + 1;
      }
    }

    /** Insertion behind the first loc - 1 nodes. */
    method AddAfter(job: Job, loc: nat)
      requires Valid() && 2 <= loc <= |jobs|
      modifies this, spine
      ensures Valid() && forall n | n in spine :: n in old(spine) || fresh(n)
      ensures jobs == Spliced(old(jobs), job, loc - 1)
    {
      var left, right := Seek(loc);
      var temp := new Node(job);
      ghost var was := spine;
      SplicedAt(was, temp, loc - 1);
      left.next := temp;
      temp.next := right;
      spine, jobs := Spliced(was, temp, loc - 1), Spliced(jobs, job, loc - 1);
    }

    /** Insertion at the end. */
    method Append(job: Job)
      requires Valid() && jobs != []
      modifies this, spine
      ensures Valid() && forall n | n in spine :: n in old(spine) || fresh(n)
      ensures jobs == Spliced(old(jobs), job, |old(jobs)|)
    {
      var temp := new Node(job);
      var right := head;
      ghost var i := 0;
      while right.next != null
        invariant 0 <= i < |spine| && right == Nth(spine, i, null)
        decreases |spine| - i
      {
        right := right.next;
        i := i + 1;
      }
      right.next := temp;
      temp.next := null;
      spine, jobs := spine + [temp], Spliced(jobs, job, |jobs|);
    }

    /** The count that insert takes. */
    method CountBelow(k: int) returns (c: nat)
      requires Valid()
      ensures c == Below(jobs, k)
    {
      c := 0;
      var temp := head;
      ghost var i := 0;
      while temp != null
        invariant i <= |spine| && temp == Nth(spine, i, null)
        invariant c == Below(jobs[..i], k)
        decreases |spine| - i
      {
        assert jobs[..i + 1][..i] == jobs[..i];
        if temp.data.arrival + temp.data.duration < k {
          c := c + 1;
        }
        temp := temp.next;
        i := i + 1;
      }
      assert jobs[..i] == jobs;
    }

    method Insert(job: Job)
      requires Valid()
      modifies this, spine
      ensures Valid() && forall n | n in spine :: n in old(spine) || fresh(n)
      ensures jobs == Inserted(old(jobs), job)
    {
      if head == null {
        Add(job);
      } else {
        var c := CountBelow(job.arrival + job.duration);
        var n := Count();
        BelowBound(jobs, Key(job));
        if c == 0 {
          Add(job);
        } else if c < n {
          c := c + 1;
          AddAfter(job, c);
        } else {
          Append(job);
        }
      }
    }
  }

  // ---- What repeated insertion gives ----------------------------------------------------------

  function Build(input: seq<Job>): seq<Job> {
    if input == [] then [] else Inserted(Build(input[..|input| - 1]), input[|input| - 1])
  }

  predicate Sorted(jobs: seq<Job>) {
    forall i, j | 0 <= i < j < |jobs| :: Key(jobs[i]) <= Key(jobs[j])
  }

  /** In a sorted list the jobs with smaller keys are those before the insertion point. */
  lemma {:induction false} BelowSplits(jobs: seq<Job>, k: int)
    requires Sorted(jobs)
    ensures Below(jobs, k) <= |jobs|
    ensures forall i | 0 <= i < |jobs| :: Key(jobs[i]) < k <==> i < Below(jobs, k)
  {
    if jobs != [] {
      var rest := jobs[..|jobs| - 1];
      BelowSplits(rest, k);
      forall i | 0 <= i < |jobs| ensures Key(jobs[i]) < k <==> i < Below(jobs, k) {
        if i < |rest| {
          assert rest[i] == jobs[i];
        }
        if rest != [] {
          assert rest[|rest| - 1] == jobs[|jobs| - 2];
        }
      }
    }
  }

  /** The jobs with key k, in order. */
  function WithKey(jobs: seq<Job>, k: int): seq<Job> {
    if jobs == [] then []
    else if Key(jobs[0]) == k then [jobs[0]] + WithKey(jobs[1..], k) else WithKey(jobs[1..], k)
  }

  lemma {:induction false} WithKeyAppend(xs: seq<Job>, ys: seq<Job>, k: int)
    ensures WithKey(xs + ys, k) == WithKey(xs, k) + WithKey(ys, k)
  {
    if xs == [] {
      assert xs + ys == ys;
    } else {
      assert (xs + ys)[1..] == xs[1..] + ys;
      WithKeyAppend(xs[1..], ys, k);
    }
  }

  lemma {:induction false} WithKeyNone(xs: seq<Job>, k: int)
    requires forall i | 0 <= i < |xs| :: Key(xs[i]) != k
    ensures WithKey(xs, k) == []
  {
    if xs != [] {
      WithKeyNone(xs[1..], k);
    }
  }

  function Reverse(xs: seq<Job>): seq<Job> {
    if xs == [] then [] else [xs[|xs| - 1]] + Reverse(xs[..|xs| - 1])
  }

  /** Inserting into a sorted list keeps it sorted and puts the job before all jobs of its key. */
  lemma InsertedSorted(jobs: seq<Job>, job: Job, k: int)
    requires Sorted(jobs)
    ensures Sorted(Inserted(jobs, job))
    ensures multiset(Inserted(jobs, job)) == multiset(jobs) + multiset{job}
    ensures WithKey(Inserted(jobs, job), k) == if k == Key(job) then [job] + WithKey(jobs, k) else WithKey(jobs, k)
  {
    var c := Below(jobs, Key(job));
    BelowSplits(jobs, Key(job));
    InsertedOrder(jobs, job, c);
    InsertedKeys(jobs, job, c, k);
    assert jobs == jobs[..c] + jobs[c..];
  }

  lemma InsertedKeys(jobs: seq<Job>, job: Job, c: nat, k: int)
    requires c <= |jobs| && forall i | 0 <= i < c :: Key(jobs[i]) < Key(job)
    ensures WithKey(Spliced(jobs, job, c), k) == if k == Key(job) then [job] + WithKey(jobs, k) else WithKey(jobs, k)
  {
    var front, back := jobs[..c], jobs[c..];
    WithKeyAppend(front + [job], back, k);
    WithKeyAppend(front, [job], k);
    WithKeyAppend(front, back, k);
    assert jobs == front + back;
    assert WithKey([job], k) == if k == Key(job) then [job] else [];
    if k == Key(job) {
      WithKeyNone(front, k);
    }
  }

  lemma InsertedOrder(jobs: seq<Job>, job: Job, c: nat)
    requires Sorted(jobs) && c <= |jobs|
    requires forall i | 0 <= i < |jobs| :: Key(jobs[i]) < Key(job) <==> i < c
    ensures Sorted(Spliced(jobs, job, c))
  {
  }

  /** However the jobs come in, the list is a sorted permutation of them, in which jobs with equal keys
      are in reverse order of arrival. */
  lemma {:induction false} BuildIsSorted(input: seq<Job>, k: int)
    ensures Sorted(Build(input)) && multiset(Build(input)) == multiset(input)
    ensures WithKey(Build(input), k) == Reverse(WithKey(input, k))
  {
    if input != [] {
      var rest, last := input[..|input| - 1], input[|input| - 1];
      assert input == rest + [last];
      BuildIsSorted(rest, k);
      assert Build(input) == Inserted(Build(rest), last);
      InsertedSorted(Build(rest), last, k);
      WithKeyAppend(rest, [last], k);
      assert WithKey([last], k) == if k == Key(last) then [last] else [];
      if k == Key(last) {
        var w := WithKey(rest, k);
        assert WithKey(input, k) == w + [last];
        assert (w + [last])[..|w|] == w;
        assert Reverse(w + [last]) == [last] + Reverse(w);
      } else {
        assert WithKey(rest, k) + [] == WithKey(rest, k);
      }
    }
  }
}
