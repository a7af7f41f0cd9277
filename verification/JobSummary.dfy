/** The summary of the jobs: display threads walk the same list of jobs, simulate the time at which
    each job completes, and write that time into one shared list with an entry per user. */
module JobSummary {
  import opened JobList
  import opened Runs
  import opened Sequences
  import opened Sums

  // ---- The simulated schedule -----------------------------------------------------------------

  function Span(j: Job): int { if j.duration > 0 then j.duration else 0 }

  /** The time at which a display thread has finished job k. */
  function Finish(jobs: seq<Job>, k: nat): int
    requires k < |jobs|
  {
    var start := if k == 0 then 0 else Finish(jobs, k - 1);
    (if start < jobs[k].arrival then jobs[k].arrival else start) + Span(jobs[k])
  }

  /** How long jobs j to k run together; a negative duration is none. */
  function Durations(jobs: seq<Job>, j: nat, k: nat): int
    requires j <= k < |jobs|
  {
    (if jobs[k].duration >= 0 then jobs[k].duration else 0) + if j == k then 0 else Durations(jobs, j, k - 1)
  }

  /** Job k is not complete before time job j, if it is one, has arrived and all from there on have run; the display
      itself begins at time 0. */
  ghost predicate NotBefore(jobs: seq<Job>, k: nat, time: int)
    requires k < |jobs|
  {
    && Durations(jobs, 0, k) <= time
    && forall j | 0 <= j <= k :: jobs[j].arrival + Durations(jobs, j, k) <= time
  }

  /** The completion time of job k is the largest of these times: the durations of all jobs up to k, and, over all
      j up to k, the arrival of j plus the durations from j to k. Some job, or time 0, starts the busy period. */
  lemma {:induction false} FinishIsBusyPeriod(jobs: seq<Job>, k: nat)
    requires k < |jobs|
    ensures NotBefore(jobs, k, Finish(jobs, k))
    ensures || Finish(jobs, k) == Durations(jobs, 0, k)
            || exists j :: 0 <= j <= k && Finish(jobs, k) == jobs[j].arrival + Durations(jobs, j, k)
  {
    if k == 0 {
      assert Durations(jobs, 0, 0) == Span(jobs[0]);
    } else {
      FinishIsBusyPeriod(jobs, k - 1);
      forall j | 0 <= j < k ensures Durations(jobs, j, k) == Span(jobs[k]) + Durations(jobs, j, k - 1) {
      }
      if Finish(jobs, k - 1) < jobs[k].arrival {
        assert Finish(jobs, k) == jobs[k].arrival + Durations(jobs, k, k);
      } else if j :| 0 <= j <= k - 1 && Finish(jobs, k - 1) == jobs[j].arrival + Durations(jobs, j, k - 1) {
        assert Finish(jobs, k) == jobs[j].arrival + Durations(jobs, j, k);
      }
      forall j | 0 <= j <= k ensures jobs[j].arrival + Durations(jobs, j, k) <= Finish(jobs, k) {
        if j < k {
          assert jobs[j].arrival + Durations(jobs, j, k - 1) <= Finish(jobs, k - 1);
        }
      }
    }
  }

  // ---- The summary list ------------------------------------------------------------------------

  datatype Entry = Entry(user: string, time: int)

  /** An entry with the user gets the time; a new user goes to the end. */
  function Updated(entries: seq<Entry>, user: string, time: int): seq<Entry> {
    if entries == [] then [Entry(user, time)]
    else if entries[0].user == user then [Entry(user, time)] + entries[1..]
    else [entries[0]] + Updated(entries[1..], user, time)
  }

  function Users(entries: seq<Entry>): seq<string> {
    if entries == [] then [] else [entries[0].user] + Users(entries[1..])
  }

  function WithUser(users: seq<string>, user: string): seq<string> { if user in users then users else users + [user] }

  /** The time of the first entry of the user, or 0. */
  function TimeOf(entries: seq<Entry>, user: string): int {
    if entries == [] then 0 else if entries[0].user == user then entries[0].time else TimeOf(entries[1..], user)
  }

  lemma {:induction false} UpdatedUsers(entries: seq<Entry>, user: string, time: int)
    ensures Users(Updated(entries, user, time)) == WithUser(Users(entries), user)
  {
    if entries != [] && entries[0].user != user {
      UpdatedUsers(entries[1..], user, time);
      assert Updated(entries, user, time)[1..] == Updated(entries[1..], user, time);
    } else if entries != [] {
      assert Updated(entries, user, time)[1..] == entries[1..];
    }
  }

  lemma {:induction false} UpdatedTimes(entries: seq<Entry>, user: string, time: int, other: string)
    ensures TimeOf(Updated(entries, user, time), other) == if other == user then time else TimeOf(entries, other)
  {
    if entries != [] && entries[0].user != user {
      UpdatedTimes(entries[1..], user, time, other);
      assert Updated(entries, user, time)[1..] == Updated(entries[1..], user, time);
    } else if entries != [] {
      assert Updated(entries, user, time)[1..] == entries[1..];
    }
  }

  /** Two summaries with the same users in the same order, each once, and the same times are the same. */
  lemma {:induction false} SameSummary(xs: seq<Entry>, ys: seq<Entry>)
    requires Users(xs) == Users(ys) && Distinct(Users(xs))
    requires forall u | u in Users(xs) :: TimeOf(xs, u) == TimeOf(ys, u)
    ensures xs == ys
  {
    if xs != [] {
      assert Users(xs)[0] == xs[0].user && Users(xs)[1..] == Users(xs[1..]);
      assert ys != [] && Users(ys)[0] == ys[0].user && Users(ys)[1..] == Users(ys[1..]);
      assert TimeOf(xs, xs[0].user) == TimeOf(ys, xs[0].user);
      var rest := Users(xs[1..]);
      forall i, j | 0 <= i < j < |rest| ensures rest[i] != rest[j] {
        assert Users(xs)[i + 1] == rest[i] && Users(xs)[j + 1] == rest[j];
      }
      forall u | u in rest ensures TimeOf(xs[1..], u) == TimeOf(ys[1..], u) {
        var i :| 0 <= i < |rest| && rest[i] == u;
        assert Users(xs)[i + 1] == u;
        assert TimeOf(xs, u) == TimeOf(ys, u);
      }
      SameSummary(xs[1..], ys[1..]);
    }
  }

  class DisplayNode {
    var user: string
    var timeLastCalculated: int
    var next: DisplayNode?

    constructor (user: string, time: int)
      ensures this.user == user && timeLastCalculated == time && next == null
    {
      this.user, timeLastCalculated, next := user, time, null;
    }
  }

  class SummaryList {
    var frontDisplay: DisplayNode?
    var rearDisplay: DisplayNode?
    ghost var spine: seq<DisplayNode>
    ghost var entries: seq<Entry>

    ghost predicate Valid()
      reads this, spine
    {
      && frontDisplay == Nth(spine, 0, null)
      && rearDisplay == (if spine == [] then null else spine[|spine| - 1])
      && (forall i {:trigger spine[i].next} | 0 <= i < |spine| :: spine[i].next == Nth(spine, i + 1, null))
      && Distinct(spine)
      && |entries| == |spine|
      && (forall i {:trigger entries[i]} | 0 <= i < |spine| ::
          entries[i] == Entry(spine[i].user, spine[i].timeLastCalculated))
    }

    constructor ()
      ensures Valid() && entries == []
    {
      frontDisplay, rearDisplay, spine, entries := null, null, [], [];
    }

    method Overwrite(node: DisplayNode, time: int, ghost i: nat)
      requires Valid() && i < |spine| && node == spine[i]
      modifies this, spine
      ensures Valid() && spine == old(spine) && entries == old(entries)[i := Entry(old(entries)[i].user, time)]
    {
      node.timeLastCalculated := time;
      entries := entries[i := Entry(entries[i].user, time)];
    }

    method Append(name: string, time: int)
      requires Valid() && rearDisplay != null
      modifies this, spine
      ensures Valid() && entries == old(entries) + [Entry(name, time)]
      ensures forall n | n in spine :: n in old(spine) || fresh(n)
    {
      var node := new DisplayNode(name, time);
      rearDisplay.next := node;
      rearDisplay := node;
      spine, entries := spine + [node], entries + [Entry(name, time)];
    }

    method AddToSummary(name: string, timeLeft: int)
      requires Valid()
      modifies this, spine
      ensures Valid() && entries == Updated(old(entries), name, timeLeft)
      ensures forall n | n in spine :: n in old(spine) || fresh(n)
    {
      if rearDisplay == null {
        rearDisplay := new DisplayNode(name, timeLeft);
        frontDisplay := rearDisplay;
        spine, entries := [rearDisplay], [Entry(name, timeLeft)];
      } else {
        var tempDisplay := frontDisplay;
        ghost var i := 0;
        while tempDisplay != null
          invariant i <= |spine| && tempDisplay == Nth(spine, i, null)
          invariant forall k | 0 <= k < i :: entries[k].user != name
          decreases |spine| - i
        {
          if tempDisplay.user == name {
            UpdatedAt(entries, name, timeLeft, i);
            Overwrite(tempDisplay, timeLeft, i);
            return;
          }
          tempDisplay := tempDisplay.next;
          i := i + 1;
        }
        UpdatedAt(entries, name, timeLeft, |entries|);
        Append(name, timeLeft);
      }
    }
  }

  /** The update happens at the first entry with the user, or behind the last entry. */
  lemma {:induction false} UpdatedAt(entries: seq<Entry>, user: string, time: int, i: nat)
    requires i <= |entries| && forall k | 0 <= k < i :: entries[k].user != user
    requires i < |entries| ==> entries[i].user == user
    ensures Updated(entries, user, time) == if i < |entries| then entries[i := Entry(user, time)]
        else entries + [Entry(user, time)]
  {
    if i > 0 {
      UpdatedAt(entries[1..], user, time, i - 1);
    } else if entries != [] {
      assert entries[0 := Entry(user, time)] == [Entry(user, time)] + entries[1..];
    }
  }

  // ---- Display threads -----------------------------------------------------------------------------

  /** The summary a single thread has produced after its first k jobs. */
  function Sequential(jobs: seq<Job>, k: nat): seq<Entry>
    requires k <= |jobs|
  {
    if k == 0 then [] else Updated(Sequential(jobs, k - 1), jobs[k - 1].user, Finish(jobs, k - 1))
  }

  /** A thread is at job next of the list and has reached time myTime. */
  datatype Thread = Thread(next: nat, myTime: int)

  datatype State = State(threads: seq<Thread>, summary: seq<Entry>)

  ghost predicate Init(n: nat, s: State) {
    |s.threads| == n && s.summary == [] && forall t | 0 <= t < n :: s.threads[t] == Thread(0, 0)
  }

  /** A thread waits for the arrival of its next job, runs it and calls addToSummary under the lock. */
  function Step(jobs: seq<Job>, s: State, t: nat): State
    requires t < |s.threads| && s.threads[t].next < |jobs|
  {
    var c, job := s.threads[t], jobs[s.threads[t].next];
    var time := (if c.myTime < job.arrival then job.arrival else c.myTime) + Span(job);
    State(s.threads[t := Thread(c.next + 1, time)], Updated(s.summary, job.user, time))
  }

  ghost predicate Next(jobs: seq<Job>, s: State, s': State) {
    exists t: nat :: t < |s.threads| && s.threads[t].next < |jobs| && s' == Step(jobs, s, t)
  }

  ghost predicate Run(jobs: seq<Job>, n: nat, run: seq<State>) {
    IsRun((s: State) => Init(n, s), (s: State, s': State) => Next(jobs, s, s'), run)
  }

  lemma Starts(jobs: seq<Job>, n: nat)
    ensures Run(jobs, n, [State(seq(n, _ => Thread(0, 0)), [])])
  {
  }

  predicate AllDone(jobs: seq<Job>, s: State) { forall t | 0 <= t < |s.threads| :: s.threads[t].next == |jobs| }

  /** Time of a user that the sequential summary had when thread t was last here. */
  ghost predicate LastWriter(jobs: seq<Job>, s: State, user: string, t: nat) {
    && t < |s.threads| && s.threads[t].next <= |jobs|
    && user in Users(Sequential(jobs, s.threads[t].next))
    && TimeOf(s.summary, user) == TimeOf(Sequential(jobs, s.threads[t].next), user)
  }

  /** most is how far the foremost thread is; everybody's time is that of the schedule. */
  ghost predicate Foremost(jobs: seq<Job>, threads: seq<Thread>, most: nat) {
    && most <= |jobs|
    && (forall t | 0 <= t < |threads| ::
          && threads[t].next <= most
          && threads[t].myTime == if threads[t].next == 0 then 0 else Finish(jobs, threads[t].next - 1))
    && (most > 0 ==> exists t | 0 <= t < |threads| :: threads[t].next == most)
  }

  /** The summary has the users that the foremost thread has met, and each user's time is the one
      some thread would have written on its own. */
  ghost predicate Leading(jobs: seq<Job>, s: State, most: nat) {
    && Foremost(jobs, s.threads, most)
    && Users(s.summary) == Users(Sequential(jobs, most))
    && (forall user | user in Users(s.summary) :: exists t: nat :: LastWriter(jobs, s, user, t))
  }

  ghost predicate Inv(jobs: seq<Job>, n: nat, s: State) {
    |s.threads| == n && exists most: nat :: Leading(jobs, s, most)
  }

  lemma {:induction false} SequentialUsers(jobs: seq<Job>, k: nat, l: nat)
    requires k <= l <= |jobs|
    ensures Distinct(Users(Sequential(jobs, l)))
    ensures forall u | u in Users(Sequential(jobs, k)) :: u in Users(Sequential(jobs, l))
    ensures k < l ==> jobs[k].user in Users(Sequential(jobs, l))
    decreases l
  {
    if l > 0 {
      UpdatedUsers(Sequential(jobs, l - 1), jobs[l - 1].user, Finish(jobs, l - 1));
      SequentialUsers(jobs, if k == l then l - 1 else k, l - 1);
    }
  }

  /** A step in the terms of the sequential summary. */
  lemma {:induction false} StepIs(jobs: seq<Job>, s: State, t: nat)
    requires t < |s.threads| && s.threads[t].next < |jobs|
    requires s.threads[t].myTime == if s.threads[t].next == 0 then 0 else Finish(jobs, s.threads[t].next - 1)
    ensures var p := s.threads[t].next;
            Step(jobs, s, t) == State(s.threads[t := Thread(p + 1, Finish(jobs, p))],
                                      Updated(s.summary, jobs[p].user, Finish(jobs, p)))
  {
  }

  lemma StepKeeps(jobs: seq<Job>, s: State, s': State, most: nat, t: nat)
    requires Leading(jobs, s, most) && t < |s.threads| && s.threads[t].next < |jobs| && s' == Step(jobs, s, t)
    ensures Leading(jobs, s', if s.threads[t].next == most then most + 1 else most)
  {
    var p := s.threads[t].next;
    StepIs(jobs, s, t);
    UsersAfter(jobs, s.summary, most, p);
    WritersAfter(jobs, s, s', t, p);
    ForemostAfter(jobs, s.threads, most, t);
  }

  lemma ForemostAfter(jobs: seq<Job>, threads: seq<Thread>, most: nat, t: nat)
    requires Foremost(jobs, threads, most) && t < |threads| && threads[t].next < |jobs|
    ensures var p := threads[t].next;
            Foremost(jobs, threads[t := Thread(p + 1, Finish(jobs, p))], if p == most then most + 1 else most)
  {
    var p := threads[t].next;
    var threads' := threads[t := Thread(p + 1, Finish(jobs, p))];
    assert threads'[t].next == p + 1;
    if p != most {
      var u :| 0 <= u < |threads| && threads[u].next == most;
      assert threads'[u].next == most;
    }
  }

  lemma WritersAfter(jobs: seq<Job>, s: State, s': State, t: nat, p: nat)
    requires t < |s.threads| && p == s.threads[t].next < |jobs|
    requires s' == State(s.threads[t := Thread(p + 1, Finish(jobs, p))],
        Updated(s.summary, jobs[p].user, Finish(jobs, p)))
    requires forall w | w in Users(s.summary) :: exists u: nat :: LastWriter(jobs, s, w, u)
    ensures forall w | w in Users(s'.summary) :: exists u: nat :: LastWriter(jobs, s', w, u)
  {
    UpdatedUsers(s.summary, jobs[p].user, Finish(jobs, p));
    forall w | w in Users(s'.summary)
      ensures exists u: nat :: LastWriter(jobs, s', w, u)
    {
      if w == jobs[p].user {
        WritesItself(jobs, s, s', t, p);
      } else {
        var u: nat :| LastWriter(jobs, s, w, u);
        KeepsWriter(jobs, s, s', t, p, w, u);
      }
    }
  }

  lemma UsersAfter(jobs: seq<Job>, summary: seq<Entry>, most: nat, p: nat)
    requires p <= most <= |jobs| && p < |jobs| && Users(summary) == Users(Sequential(jobs, most))
    ensures Users(Updated(summary, jobs[p].user, Finish(jobs, p)))
        == Users(Sequential(jobs, if p == most then most + 1 else most))
  {
    UpdatedUsers(summary, jobs[p].user, Finish(jobs, p));
    UpdatedUsers(Sequential(jobs, p), jobs[p].user, Finish(jobs, p));
    SequentialUsers(jobs, p, most);
  }

  lemma {:induction false} WritesItself(jobs: seq<Job>, s: State, s': State, t: nat, p: nat)
    requires t < |s.threads| && p < |jobs|
    requires s' == State(s.threads[t := Thread(p + 1, Finish(jobs, p))],
        Updated(s.summary, jobs[p].user, Finish(jobs, p)))
    ensures LastWriter(jobs, s', jobs[p].user, t)
  {
    var user, time := jobs[p].user, Finish(jobs, p);
    UpdatedTimes(s.summary, user, time, user);
    UpdatedTimes(Sequential(jobs, p), user, time, user);
    UpdatedUsers(Sequential(jobs, p), user, time);
  }

  lemma {:induction false} KeepsWriter(jobs: seq<Job>, s: State, s': State, t: nat, p: nat, w: string, u: nat)
    requires t < |s.threads| && p == s.threads[t].next < |jobs| && w != jobs[p].user && LastWriter(jobs, s, w, u)
    requires s' == State(s.threads[t := Thread(p + 1, Finish(jobs, p))],
        Updated(s.summary, jobs[p].user, Finish(jobs, p)))
    ensures LastWriter(jobs, s', w, u)
  {
    var user, time := jobs[p].user, Finish(jobs, p);
    UpdatedTimes(s.summary, user, time, w);
    UpdatedTimes(Sequential(jobs, p), user, time, w);
    UpdatedUsers(Sequential(jobs, p), user, time);
  }

  lemma NextInv(jobs: seq<Job>, n: nat, s: State, s': State)
    requires Inv(jobs, n, s) && Next(jobs, s, s')
    ensures Inv(jobs, n, s')
  {
    var most: nat :| Leading(jobs, s, most);
    var t: nat :| t < |s.threads| && s.threads[t].next < |jobs| && s' == Step(jobs, s, t);
    StepKeeps(jobs, s, s', most, t);
  }

  /** When n >= 1 display threads have finished, in whatever order their calls came, the summary is the
      one a single thread produces: no user appears twice, and users, order and times agree. */
  lemma {:induction false} SummaryIsDeterministic(jobs: seq<Job>, n: nat, run: seq<State>)
    requires n >= 1 && Run(jobs, n, run) && AllDone(jobs, run[|run| - 1])
    ensures run[|run| - 1].summary == Sequential(jobs, |jobs|)
    ensures Distinct(Users(run[|run| - 1].summary))
  {
    forall s | Init(n, s) ensures Inv(jobs, n, s) {
      assert Leading(jobs, s, 0);
    }
    forall s, s' | Inv(jobs, n, s) && Next(jobs, s, s') ensures Inv(jobs, n, s') {
      NextInv(jobs, n, s, s');
    }
    Invariance((s: State) => Init(n, s), (s: State, s': State) => Next(jobs, s, s'), (s: State) => Inv(jobs, n, s),
        run, |run| - 1);
    AtTheEnd(jobs, run[|run| - 1]);
  }

  lemma AtTheEnd(jobs: seq<Job>, s: State)
    requires |s.threads| >= 1 && AllDone(jobs, s) && exists most: nat :: Leading(jobs, s, most)
    ensures s.summary == Sequential(jobs, |jobs|) && Distinct(Users(s.summary))
  {
    var most: nat :| Leading(jobs, s, most);
    assert s.threads[0].next == |jobs|;
    assert most == |jobs|;
    SequentialUsers(jobs, most, most);
    forall u | u in Users(s.summary) ensures TimeOf(s.summary, u) == TimeOf(Sequential(jobs, most), u) {
      var t: nat :| LastWriter(jobs, s, u, t);
      assert s.threads[t].next == |jobs|;
    }
    SameSummary(s.summary, Sequential(jobs, most));
  }

  // ---- Termination ----------------------------------------------------------------------------------

  function Written(c: Thread): int { c.next }

  lemma StepCounts(jobs: seq<Job>, s: State, t: nat)
    requires t < |s.threads| && s.threads[t].next < |jobs|
    ensures Sum(Written, Step(jobs, s, t).threads) == Sum(Written, s.threads) + 1
  {
    SumUpdate(Written, s.threads, t, Step(jobs, s, t).threads[t]);
  }

  /** Every step writes one job of one thread, and some thread can go on until all are done, so every run
      ends after as many steps as there are jobs for all threads together. */
  lemma {:induction false} RunsEnd(jobs: seq<Job>, n: nat, run: seq<State>, i: nat)
    requires Run(jobs, n, run) && i < |run|
    ensures |run[i].threads| == n && forall t | 0 <= t < n :: run[i].threads[t].next <= |jobs|
    ensures Sum(Written, run[i].threads) == i <= |jobs| * n
    ensures AllDone(jobs, run[i]) || exists s' :: Next(jobs, run[i], s')
  {
    var s := run[i];
    if i == 0 {
      SumBounds(Written, s.threads, 0, 0);
    } else {
      RunsEnd(jobs, n, run, i - 1);
      assert Next(jobs, run[i - 1], s);
      var t: nat :| t < |run[i - 1].threads| && run[i - 1].threads[t].next < |jobs| && s == Step(jobs, run[i - 1], t);
      StepCounts(jobs, run[i - 1], t);
    }
    SumBounds(Written, s.threads, 0, |jobs|);
    if t: nat :| t < n && s.threads[t].next != |jobs| {
      assert Next(jobs, s, Step(jobs, s, t));
    }
  }
}
