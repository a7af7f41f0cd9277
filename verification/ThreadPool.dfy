/** The task queue of the thread pool: an array whose front is taken by shifting the rest down. */
module TaskQueues {
  datatype Task = Task(a: int, b: int)

  class TaskQueue {
    const slots: array<Task>
    var count: nat

    ghost predicate Valid()
      reads this
    {
      count <= slots.Length
    }

    ghost function Contents(): seq<Task>
      reads this, slots
      requires Valid()
    {
      slots[..count]
    }

    constructor (capacity: nat)
      ensures Valid() && fresh(slots) && slots.Length == capacity && Contents() == []
    {
      slots := new Task[capacity](_ => Task(0, 0));
      count := 0;
    }

    /** The part of getTask after the wait: the caller has seen a non-empty queue. */
    method TakeFirst() returns (task: Task)
      requires Valid() && Contents() != []
      modifies this, slots
      ensures Valid() && [task] + Contents() == old(Contents())
    {
      task := slots[0];
      var i := 0;
      while i < count - 1
        invariant 0 <= i <= count - 1
        invariant count == old(count)
        invariant forall k | 0 <= k < i :: slots[k] == old(slots[k + 1])
        invariant forall k | i <= k < count :: slots[k] == old(slots[k])
      {
        slots[i] := slots[i + 1];
        i := i + 1;
      }
      count := count - 1;
    }

    /** The part of submitTask after the wait: the caller has seen a free slot. */
    method Append(task: Task)
      requires Valid() && |Contents()| < slots.Length
      modifies this, slots
      ensures Valid() && Contents() == old(Contents()) + [task]
    {
      slots[count] := task;
      count := count + 1;
    }
  }
}

/** Workers and submitters around the task queue, with condition variables that are signalled after
    the mutex is released and that may wake up spuriously. */
module ThreadPool {
  import opened Sums
  import opened Runs
  import opened TaskQueues

  datatype Pc =
    | GetLock     // worker: lock the mutex
    | GetTest     // taskCount == 0 ?
    | GetSleep    // in pthread_cond_wait(&condEmpty)
    | GetRelock   // woken, needs the mutex again
    | Take        // take the first task
    | GetUnlock
    | GetSignal   // pthread_cond_signal(&condFull)
    | Execute     // the termination test and executeTask
    | Ended       // the worker has left its loop
    | PutNext     // submitter: is there another task?
    | PutLock
    | PutTest     // taskCount == BUFFER_SIZE ?
    | PutSleep    // in pthread_cond_wait(&condFull)
    | PutRelock
    | Put         // append the task
    | PutUnlock
    | PutSignal   // pthread_cond_signal(&condEmpty)
    | Submitted   // the submitter has no more tasks

  /** todo is what a submitter still has to submit; task is the last task a worker has taken. */
  datatype Thread = Thread(pc: Pc, task: Task, todo: seq<Task>)

  datatype Entry = Entry(thread: nat, task: Task)

  datatype Owner = Free | Held(thread: nat)

  /** submitted, taken and executed record in order who put, took and executed which task; no step reads
      them. */
  datatype State = State(lock: Owner, queue: seq<Task>, threads: seq<Thread>,
                         submitted: seq<Entry>, taken: seq<Entry>, executed: seq<Entry>)

  /** Workers start at GetLock and have nothing to submit, submitters start at PutNext. */
  ghost predicate Init(tasks: seq<seq<Task>>, s: State) {
    && s.lock == Free && s.queue == [] && s.submitted == s.taken == s.executed == []
    && |s.threads| == |tasks|
    && forall t | 0 <= t < |tasks| ::
         && ((s.threads[t].pc == GetLock && tasks[t] == []) || s.threads[t].pc == PutNext)
         && s.threads[t].todo == tasks[t]
  }

  predicate IsWorker(pc: Pc) {
    match pc
    case GetLock | GetTest | GetSleep | GetRelock | Take | GetUnlock | GetSignal | Execute | Ended => true
    case _ => false
  }

  /** Whether thread t has a step of its own; a sleeper only has a spurious wake-up. */
  predicate Active(s: State, t: nat) {
    && t < |s.threads|
    && match s.threads[t].pc
       case GetLock | GetRelock | PutLock | PutRelock => s.lock == Free
       case GetSleep | PutSleep | Ended | Submitted => false
       case _ => true
  }

  const TERMINATION := Task(-1, -1)

  /** Where thread t goes next, given the queue. */
  function Advance(capacity: nat, queue: seq<Task>, c: Thread): Thread {
    match c.pc
    case GetLock => c.(pc := GetTest)
    case GetTest => c.(pc := if queue == [] then GetSleep else Take)
    case GetSleep => c.(pc := GetRelock)
    case GetRelock => c.(pc := GetTest)
    case Take => if queue == [] then c else c.(pc := GetUnlock, task := queue[0])
    case GetUnlock => c.(pc := GetSignal)
    case GetSignal => c.(pc := Execute)
    case Execute => c.(pc := if c.task == TERMINATION then Ended else GetLock)
    case Ended => c
    case PutNext => c.(pc := if c.todo == [] then Submitted else PutLock)
    case PutLock => c.(pc := PutTest)
    case PutTest => c.(pc := if |queue| == capacity then PutSleep else Put)
    case PutSleep => c.(pc := PutRelock)
    case PutRelock => c.(pc := PutTest)
    case Put => if c.todo == [] then c else c.(pc := PutUnlock, todo := c.todo[1..])
    case PutUnlock => c.(pc := PutSignal)
    case PutSignal => c.(pc := PutNext)
    case Submitted => c
  }

  function LockAfter(capacity: nat, s: State, t: nat): Owner
    requires t < |s.threads|
  {
    match s.threads[t].pc
    case GetLock | GetRelock | PutLock | PutRelock => Held(t)
    case GetUnlock | PutUnlock => Free
    case GetTest => if s.queue == [] then Free else s.lock
    case PutTest => if |s.queue| == capacity then Free else s.lock
    case _ => s.lock
  }

  /** One step of thread t that wakes nobody. */
  function Step(capacity: nat, s: State, t: nat): State
    requires t < |s.threads|
  {
    var c := s.threads[t];
    var s' := s.(lock := LockAfter(capacity, s, t), threads := s.threads[t := Advance(capacity, s.queue, c)]);
    if c.pc == Take && s.queue != [] then
      s'.(queue := s.queue[1..], taken := s.taken + [Entry(t, s.queue[0])])
    else if c.pc == Put && c.todo != [] then
      s'.(queue := s.queue + [c.todo[0]], submitted := s.submitted + [Entry(t, c.todo[0])])
    else if c.pc == Execute && c.task != TERMINATION then
      s'.(executed := s.executed + [Entry(t, c.task)])
    else s'
  }

  /** The sleepers that a signal of a thread at pc reaches. */
  function Reaches(pc: Pc): Pc { if pc == GetSignal then PutSleep else GetSleep }

  predicate Signals(pc: Pc) { pc == GetSignal || pc == PutSignal }

  predicate Asleep(s: State, u: nat, pc: Pc) { u < |s.threads| && s.threads[u].pc == pc }

  ghost predicate QuietMove(capacity: nat, s: State, s': State, t: nat) {
    Active(s, t) && !Signals(s.threads[t].pc) && s' == Step(capacity, s, t)
  }

  ghost predicate IdleSignal(capacity: nat, s: State, s': State, t: nat) {
    && Active(s, t) && Signals(s.threads[t].pc)
    && (forall u: nat :: !Asleep(s, u, Reaches(s.threads[t].pc)))
    && s' == Step(capacity, s, t)
  }

  ghost predicate WakingSignal(capacity: nat, s: State, s': State, t: nat, u: nat) {
    && Active(s, t) && Signals(s.threads[t].pc) && Asleep(s, u, Reaches(s.threads[t].pc))
    && s' == Step(capacity, Step(capacity, s, t), u)
  }

  ghost predicate SpuriousWakeup(capacity: nat, s: State, s': State, u: nat) {
    (Asleep(s, u, GetSleep) || Asleep(s, u, PutSleep)) && s' == Step(capacity, s, u)
  }

  /** A signal wakes a sleeper if there is one. Further ones may wake up spuriously at any time. */
  ghost predicate Next(capacity: nat, s: State, s': State) {
    || (exists t: nat :: QuietMove(capacity, s, s', t))
    || (exists t: nat :: IdleSignal(capacity, s, s', t))
    || (exists t: nat, u: nat :: WakingSignal(capacity, s, s', t, u))
    || (exists u: nat :: SpuriousWakeup(capacity, s, s', u))
  }

  /** A sleeper may wake up at any time, and has to lock the mutex again then. */
  lemma MayWake(capacity: nat, s: State, t: nat)
    requires Asleep(s, t, GetSleep) || Asleep(s, t, PutSleep)
    ensures var pc := if s.threads[t].pc == GetSleep then GetRelock else PutRelock;
            Next(capacity, s, s.(threads := s.threads[t := s.threads[t].(pc := pc)]))
  {
    assert SpuriousWakeup(capacity, s, Step(capacity, s, t), t);
  }

  ghost predicate Run(capacity: nat, tasks: seq<seq<Task>>, run: seq<State>) {
    IsRun((s: State) => Init(tasks, s), (s: State, s': State) => Next(capacity, s, s'), run)
  }

  lemma Starts(capacity: nat, tasks: seq<seq<Task>>, threads: seq<Thread>)
    requires |threads| == |tasks|
    requires forall t | 0 <= t < |tasks| ::
               threads[t].pc == (if tasks[t] == [] then GetLock else PutNext) && threads[t].todo == tasks[t]
    ensures Run(capacity, tasks, [State(Free, [], threads, [], [], [])])
  {
  }

  // ---- Who sleeps, who is awake, which signals are on their way ---------------------------------

  function Idle(c: Thread): int { if c.pc == GetSleep then 1 else 0 }

  /** A worker that has left its sleep, or holds the mutex, and will look at the queue. */
  function Looking(c: Thread): int { match c.pc case GetRelock | GetTest | Take => 1 case _ => 0 }

  /** A submitter that has added a task and has yet to signal it. */
  function Announcing(c: Thread): int { match c.pc case PutUnlock | PutSignal => 1 case _ => 0 }

  function Blocked(c: Thread): int { if c.pc == PutSleep then 1 else 0 }

  function Offering(c: Thread): int { match c.pc case PutRelock | PutTest | Put => 1 case _ => 0 }

  function Freeing(c: Thread): int { match c.pc case GetUnlock | GetSignal => 1 case _ => 0 }

  predicate Holds(pc: Pc) {
    match pc case GetTest | Take | GetUnlock | PutTest | Put | PutUnlock => true case _ => false
  }

  predicate Sound(capacity: nat, queue: seq<Task>, c: Thread) {
    && (c.pc == Take ==> queue != [])
    && (c.pc == Put ==> |queue| < capacity)
    && (match c.pc case PutLock | PutTest | PutSleep | PutRelock | Put => c.todo != [] case _ => true)
    && (IsWorker(c.pc) || c.pc == Submitted ==> c.todo == [])
  }

  ghost predicate Exclusion(capacity: nat, s: State) {
    && |s.queue| <= capacity
    && (s.lock.Held? ==> s.lock.thread < |s.threads|)
    && forall t | 0 <= t < |s.threads| ::
         Sound(capacity, s.queue, s.threads[t]) && (Holds(s.threads[t].pc) <==> s.lock == Held(t))
  }

  /** While a worker sleeps, every queued task has a signal or an awake worker coming for it; while
      a submitter sleeps, so has every free slot. */
  ghost predicate NoLostWakeup(capacity: nat, s: State) {
    && (Sum(Idle, s.threads) > 0 ==> |s.queue| <= Sum(Announcing, s.threads) + Sum(Looking, s.threads))
    && (Sum(Blocked, s.threads) > 0 ==> capacity - |s.queue| <= Sum(Freeing, s.threads) + Sum(Offering, s.threads))
  }

  /** What a step does to the counts: only falling asleep is not balanced, and then nothing is due.
      A signal (not Quiet) takes its announcement back. */
  lemma Balance(capacity: nat, s: State, t: nat)
    requires t < |s.threads| && Exclusion(capacity, s)
    ensures var s', c, c' := Step(capacity, s, t), s.threads[t], Advance(capacity, s.queue, s.threads[t]);
            && (|s'.queue| - Announcing(c') - Looking(c') <= |s.queue| - Announcing(c) - Looking(c)
                || s.queue == [] == s'.queue || c.pc == PutSignal)
            && (|s.queue| - |s'.queue| - Freeing(c') - Offering(c') <= - Freeing(c) - Offering(c)
                || |s.queue| == capacity == |s'.queue| || c.pc == GetSignal)
            && (Idle(c') > Idle(c) ==> s.queue == [] == s'.queue)
            && (Blocked(c') > Blocked(c) ==> |s.queue| == capacity == |s'.queue|)
  {
  }

  lemma OwnerKept(capacity: nat, s: State, t: nat, u: nat)
    requires Exclusion(capacity, s) && t < |s.threads| && u < |s.threads|
    requires Active(s, t) || Asleep(s, t, GetSleep) || Asleep(s, t, PutSleep)
    ensures Holds(Step(capacity, s, t).threads[u].pc) <==> Step(capacity, s, t).lock == Held(u)
  {
    assert Holds(s.threads[t].pc) <==> s.lock == Held(t);
    assert Holds(s.threads[u].pc) <==> s.lock == Held(u);
  }

  lemma SoundKept(capacity: nat, s: State, t: nat, u: nat)
    requires Exclusion(capacity, s) && t < |s.threads| && u < |s.threads|
    requires Active(s, t) || Asleep(s, t, GetSleep) || Asleep(s, t, PutSleep)
    ensures Sound(capacity, Step(capacity, s, t).queue, Step(capacity, s, t).threads[u])
  {
    assert Sound(capacity, s.queue, s.threads[t]) && (Holds(s.threads[t].pc) <==> s.lock == Held(t));
    assert Sound(capacity, s.queue, s.threads[u]) && (Holds(s.threads[u].pc) <==> s.lock == Held(u));
  }

  lemma ExclusionKept(capacity: nat, s: State, t: nat)
    requires Exclusion(capacity, s) && t < |s.threads|
    requires Active(s, t) || Asleep(s, t, GetSleep) || Asleep(s, t, PutSleep)
    ensures Exclusion(capacity, Step(capacity, s, t))
  {
    var s' := Step(capacity, s, t);
    assert Sound(capacity, s.queue, s.threads[t]);
    forall u | 0 <= u < |s.threads|
      ensures Sound(capacity, s'.queue, s'.threads[u]) && (Holds(s'.threads[u].pc) <==> s'.lock == Held(u))
    {
      OwnerKept(capacity, s, t, u);
      SoundKept(capacity, s, t, u);
    }
  }

  /** The change of every count in one step. */
  lemma CountsAfter(capacity: nat, s: State, t: nat)
    requires t < |s.threads|
    ensures var s', c, c' := Step(capacity, s, t), s.threads[t], Advance(capacity, s.queue, s.threads[t]);
            && Sum(Idle, s'.threads) == Sum(Idle, s.threads) - Idle(c) + Idle(c')
            && Sum(Looking, s'.threads) == Sum(Looking, s.threads) - Looking(c) + Looking(c')
            && Sum(Announcing, s'.threads) == Sum(Announcing, s.threads) - Announcing(c) + Announcing(c')
            && Sum(Blocked, s'.threads) == Sum(Blocked, s.threads) - Blocked(c) + Blocked(c')
            && Sum(Offering, s'.threads) == Sum(Offering, s.threads) - Offering(c) + Offering(c')
            && Sum(Freeing, s'.threads) == Sum(Freeing, s.threads) - Freeing(c) + Freeing(c')
            && 0 <= Sum(Looking, s'.threads) && 0 <= Sum(Announcing, s'.threads)
            && 0 <= Sum(Offering, s'.threads) && 0 <= Sum(Freeing, s'.threads)
  {
    var s', c' := Step(capacity, s, t), Advance(capacity, s.queue, s.threads[t]);
    SumUpdate(Idle, s.threads, t, c');
    SumUpdate(Looking, s.threads, t, c');
    SumUpdate(Announcing, s.threads, t, c');
    SumUpdate(Blocked, s.threads, t, c');
    SumUpdate(Offering, s.threads, t, c');
    SumUpdate(Freeing, s.threads, t, c');
    SumNonNegative(Looking, s'.threads);
    SumNonNegative(Announcing, s'.threads);
    SumNonNegative(Offering, s'.threads);
    SumNonNegative(Freeing, s'.threads);
  }

  lemma QuietStepKeeps(capacity: nat, s: State, t: nat)
    requires t < |s.threads| && Exclusion(capacity, s) && NoLostWakeup(capacity, s)
    requires !Signals(s.threads[t].pc)
    ensures NoLostWakeup(capacity, Step(capacity, s, t))
  {
    Balance(capacity, s, t);
    CountsAfter(capacity, s, t);
  }

  lemma SignalBalance(capacity: nat, s: State, t: nat)
    requires t < |s.threads| && Signals(s.threads[t].pc)
    ensures var s', c, c' := Step(capacity, s, t), s.threads[t], Advance(capacity, s.queue, s.threads[t]);
            && s'.queue == s.queue
            && Idle(c') == Idle(c) && Looking(c') == Looking(c) && Blocked(c') == Blocked(c)
                && Offering(c') == Offering(c)
            && Announcing(c') == Announcing(c) - (if c.pc == PutSignal then 1 else 0)
            && Freeing(c') == Freeing(c) - (if c.pc == GetSignal then 1 else 0)
  {
  }

  lemma NobodyAsleep(s: State, pc: Pc)
    requires forall u: nat :: !Asleep(s, u, pc)
    ensures pc == GetSleep ==> Sum(Idle, s.threads) == 0
    ensures pc == PutSleep ==> Sum(Blocked, s.threads) == 0
  {
    if pc == GetSleep {
      forall u | 0 <= u < |s.threads| ensures Idle(s.threads[u]) == 0 {
        assert !Asleep(s, u, GetSleep);
      }
      SumBounds(Idle, s.threads, 0, 0);
    } else if pc == PutSleep {
      forall u | 0 <= u < |s.threads| ensures Blocked(s.threads[u]) == 0 {
        assert !Asleep(s, u, PutSleep);
      }
      SumBounds(Blocked, s.threads, 0, 0);
    }
  }

  /** A signal that finds nobody asleep may be lost: nobody needs it. */
  lemma IdleSignalKeeps(capacity: nat, s: State, t: nat)
    requires t < |s.threads| && NoLostWakeup(capacity, s)
    requires Signals(s.threads[t].pc) && forall u: nat :: !Asleep(s, u, Reaches(s.threads[t].pc))
    ensures NoLostWakeup(capacity, Step(capacity, s, t))
  {
    CountsAfter(capacity, s, t);
    SignalBalance(capacity, s, t);
    NobodyAsleep(s, Reaches(s.threads[t].pc));
  }

  /** A signal that wakes somebody turns its announcement into an awake thread. */
  lemma WakingSignalKeeps(capacity: nat, s: State, t: nat, u: nat)
    requires t < |s.threads| && NoLostWakeup(capacity, s)
    requires Signals(s.threads[t].pc) && Asleep(s, u, Reaches(s.threads[t].pc))
    ensures NoLostWakeup(capacity, Step(capacity, Step(capacity, s, t), u))
  {
    CountsAfter(capacity, s, t);
    SignalBalance(capacity, s, t);
    CountsAfter(capacity, Step(capacity, s, t), u);
    SumAtLeastIdle(s, u);
  }

  lemma SumAtLeastIdle(s: State, u: nat)
    requires u < |s.threads|
    ensures Idle(s.threads[u]) <= Sum(Idle, s.threads) && Blocked(s.threads[u]) <= Sum(Blocked, s.threads)
  {
    SumAtLeast(Idle, s.threads, u);
    SumAtLeast(Blocked, s.threads, u);
  }

  // ---- First in, first out -------------------------------------------------------------------------

  ghost function From(t: nat, entries: seq<Entry>): seq<Task> {
    if entries == [] then []
    else
      var rest := entries[..|entries| - 1];
      if entries[|entries| - 1].thread == t then From(t, rest) + [entries[|entries| - 1].task] else From(t, rest)
  }

  function Payload(entries: seq<Entry>): seq<Task> {
    seq(|entries|, i requires 0 <= i < |entries| => entries[i].task)
  }

  /** The tasks taken and those in the queue are the submitted ones in order, and the submitted tasks
      of each thread with those it still has are its own tasks in order. */
  ghost predicate Fifo(tasks: seq<seq<Task>>, s: State) {
    && |s.threads| == |tasks|
    && Payload(s.taken) + s.queue == Payload(s.submitted)
    && forall t | 0 <= t < |tasks| :: From(t, s.submitted) + s.threads[t].todo == tasks[t]
  }

  lemma FromAppend(u: nat, entries: seq<Entry>, e: Entry)
    ensures From(u, entries + [e]) == From(u, entries) + if e.thread == u then [e.task] else []
  {
    assert (entries + [e])[..|entries|] == entries;
  }

  lemma OrderStep(capacity: nat, s: State, t: nat, u: nat)
    requires t < |s.threads| && u < |s.threads|
    ensures var s', c := Step(capacity, s, t), s.threads[t];
            if c.pc == Put && c.todo != [] then
              && s'.submitted == s.submitted + [Entry(t, c.todo[0])]
              && s'.threads[u].todo == if u == t then c.todo[1..] else s.threads[u].todo
            else s'.submitted == s.submitted && s'.threads[u].todo == s.threads[u].todo
  {
  }

  /** What a submitter has put and what it still has to put stay the same together. */
  lemma OrderKept(capacity: nat, s: State, t: nat, u: nat)
    requires t < |s.threads| && u < |s.threads|
    ensures From(u, Step(capacity, s, t).submitted) + Step(capacity, s, t).threads[u].todo
         == From(u, s.submitted) + s.threads[u].todo
  {
    var c := s.threads[t];
    OrderStep(capacity, s, t, u);
    if c.pc == Put && c.todo != [] {
      FromAppend(u, s.submitted, Entry(t, c.todo[0]));
      if u == t {
        assert (From(u, s.submitted) + [c.todo[0]]) + c.todo[1..] == From(u, s.submitted) + c.todo;
      }
    }
  }

  lemma FifoKept(capacity: nat, tasks: seq<seq<Task>>, s: State, t: nat)
    requires t < |s.threads| && Fifo(tasks, s)
    ensures Fifo(tasks, Step(capacity, s, t))
  {
    var s', c := Step(capacity, s, t), s.threads[t];
    if c.pc == Take && s.queue != [] {
      assert s.queue == [s.queue[0]] + s.queue[1..];
      assert Payload(s'.taken) == Payload(s.taken) + [s.queue[0]];
      assert Payload(s'.taken) + s'.queue == Payload(s.taken) + s.queue;
    } else if c.pc == Put && c.todo != [] {
      assert Payload(s'.submitted) == Payload(s.submitted) + [c.todo[0]];
      assert Payload(s'.taken) + s'.queue == (Payload(s.taken) + s.queue) + [c.todo[0]];
    }
    forall u | 0 <= u < |tasks|
      ensures From(u, s'.submitted) + s'.threads[u].todo == tasks[u]
    {
      assert From(u, s.submitted) + s.threads[u].todo == tasks[u];
      OrderKept(capacity, s, t, u);
    }
  }

  // ---- What the workers do with their tasks ------------------------------------------------------------

  /** The task that a worker has taken and not executed; a worker that has left its loop has kept the one that
      told it to. */
  function InHand(c: Thread): seq<Task> {
    match c.pc case GetUnlock | GetSignal | Execute => [c.task] case Ended => [Task(-1, -1)] case _ => []
  }

  /** Each worker has executed what it took, in order, but for the task in its hand. It executes everything but
      Task(-1, -1). */
  ghost predicate Honest(s: State) {
    && (forall t: nat | t < |s.threads| :: From(t, s.taken) == From(t, s.executed) + InHand(s.threads[t]))
    && (forall k | 0 <= k < |s.executed| :: s.executed[k].task != Task(-1, -1))
    && (forall k | 0 <= k < |s.submitted| :: s.submitted[k].thread < |s.threads|)
  }

  lemma HandsStep(capacity: nat, s: State, t: nat, u: nat)
    requires t < |s.threads| && u < |s.threads|
    ensures var s', c := Step(capacity, s, t), s.threads[t];
            if c.pc == Take && s.queue != [] then
              && s'.taken == s.taken + [Entry(t, s.queue[0])] && s'.executed == s.executed
              && InHand(s'.threads[u]) == if u == t then [s.queue[0]] else InHand(s.threads[u])
            else if c.pc == Execute && c.task != Task(-1, -1) then
              && s'.executed == s.executed + [Entry(t, c.task)] && s'.taken == s.taken
              && InHand(s'.threads[u]) == if u == t then [] else InHand(s.threads[u])
            else
              && s'.executed == s.executed && s'.taken == s.taken
              && InHand(s'.threads[u]) == InHand(s.threads[u])
  {
  }

  lemma HandsKept(capacity: nat, s: State, t: nat, u: nat)
    requires t < |s.threads| && u < |s.threads|
    requires From(u, s.taken) == From(u, s.executed) + InHand(s.threads[u])
    ensures var s' := Step(capacity, s, t); From(u, s'.taken) == From(u, s'.executed) + InHand(s'.threads[u])
  {
    var c := s.threads[t];
    HandsStep(capacity, s, t, u);
    if c.pc == Take && s.queue != [] {
      FromAppend(u, s.taken, Entry(t, s.queue[0]));
      if u == t {
        TakenUp(From(u, s.taken), From(u, s.executed), InHand(c), s.queue[0]);
      }
    } else if c.pc == Execute && c.task != Task(-1, -1) {
      FromAppend(u, s.executed, Entry(t, c.task));
      if u == t {
        PutDown(From(u, s.taken), From(u, s.executed), InHand(c), c.task);
      }
    }
  }

  lemma TakenUp(taken: seq<Task>, executed: seq<Task>, hand: seq<Task>, x: Task)
    requires taken == executed + hand && hand == []
    ensures taken + [x] == executed + [x]
  {
  }

  lemma PutDown(taken: seq<Task>, executed: seq<Task>, hand: seq<Task>, x: Task)
    requires taken == executed + hand && hand == [x]
    ensures taken == executed + [x] + []
  {
  }

  lemma HonestKept(capacity: nat, s: State, t: nat)
    requires t < |s.threads| && Honest(s)
    ensures Honest(Step(capacity, s, t))
  {
    forall u: nat | u < |s.threads|
      ensures From(u, Step(capacity, s, t).taken)
           == From(u, Step(capacity, s, t).executed) + InHand(Step(capacity, s, t).threads[u])
    {
      HandsKept(capacity, s, t, u);
    }
  }

  /** A worker that has taken a task has it in hand until it has executed it: it is the last one it took. */
  lemma LastTaken(s: State, t: nat)
    requires Honest(s) && t < |s.threads|
    requires match s.threads[t].pc case GetUnlock | GetSignal | Execute => true case _ => false
    ensures From(t, s.taken) != [] && s.threads[t].task == From(t, s.taken)[|From(t, s.taken)| - 1]
  {
  }

  /** What a thread appears with in a record is in the record, and every task of it belongs to somebody. */
  lemma {:induction false} FromIsIn(t: nat, entries: seq<Entry>, x: Task)
    ensures x in From(t, entries) <==> Entry(t, x) in entries
  {
    if entries != [] {
      var rest, last := entries[..|entries| - 1], entries[|entries| - 1];
      assert entries == rest + [last];
      FromIsIn(t, rest, x);
    }
  }

  ghost predicate Mortal(tasks: seq<seq<Task>>) { exists t | 0 <= t < |tasks| :: Task(-1, -1) in tasks[t] }

  /** A worker leaves its loop only on a task that somebody has submitted. */
  lemma EndIsSubmitted(tasks: seq<seq<Task>>, s: State, w: nat)
    requires Fifo(tasks, s) && Honest(s) && w < |s.threads| && s.threads[w].pc == Ended
    ensures Mortal(tasks)
  {
    var end := Task(-1, -1);
    assert From(w, s.taken)[|From(w, s.executed)|] == end;
    FromIsIn(w, s.taken, end);
    var k :| 0 <= k < |s.taken| && s.taken[k] == Entry(w, end);
    assert Payload(s.taken)[k] == end;
    assert Payload(s.submitted)[k] == (Payload(s.taken) + s.queue)[k] == end;
    var e := s.submitted[k];
    assert e in s.submitted;
    FromIsIn(e.thread, s.submitted, end);
    assert From(e.thread, s.submitted) + s.threads[e.thread].todo == tasks[e.thread];
  }

  // ---- Whole runs -----------------------------------------------------------------------------------

  ghost predicate Inv(capacity: nat, tasks: seq<seq<Task>>, s: State) {
    Exclusion(capacity, s) && NoLostWakeup(capacity, s) && Fifo(tasks, s) && Honest(s)
  }

  lemma InitInv(capacity: nat, tasks: seq<seq<Task>>, s: State)
    requires Init(tasks, s)
    ensures Inv(capacity, tasks, s)
  {
    SumBounds(Idle, s.threads, 0, 0);
    SumBounds(Blocked, s.threads, 0, 0);
    assert Payload(s.taken) + s.queue == Payload(s.submitted);
  }

  lemma NextInv(capacity: nat, tasks: seq<seq<Task>>, s: State, s': State)
    requires Inv(capacity, tasks, s) && Next(capacity, s, s')
    ensures Inv(capacity, tasks, s')
  {
    if t: nat :| QuietMove(capacity, s, s', t) {
      QuietInv(capacity, tasks, s, t);
    } else if t: nat :| IdleSignal(capacity, s, s', t) {
      ExclusionKept(capacity, s, t);
      IdleSignalKeeps(capacity, s, t);
      FifoKept(capacity, tasks, s, t);
      HonestKept(capacity, s, t);
    } else if t: nat, u: nat :| WakingSignal(capacity, s, s', t, u) {
      WakingInv(capacity, tasks, s, t, u);
    } else {
      var u: nat :| SpuriousWakeup(capacity, s, s', u);
      QuietInv(capacity, tasks, s, u);
    }
  }

  lemma QuietInv(capacity: nat, tasks: seq<seq<Task>>, s: State, t: nat)
    requires Inv(capacity, tasks, s) && t < |s.threads| && !Signals(s.threads[t].pc)
    requires Active(s, t) || Asleep(s, t, GetSleep) || Asleep(s, t, PutSleep)
    ensures Inv(capacity, tasks, Step(capacity, s, t))
  {
    ExclusionKept(capacity, s, t);
    QuietStepKeeps(capacity, s, t);
    FifoKept(capacity, tasks, s, t);
    HonestKept(capacity, s, t);
  }

  lemma WakingInv(capacity: nat, tasks: seq<seq<Task>>, s: State, t: nat, u: nat)
    requires Inv(capacity, tasks, s) && Active(s, t) && Signals(s.threads[t].pc)
    requires Asleep(s, u, Reaches(s.threads[t].pc))
    ensures Inv(capacity, tasks, Step(capacity, Step(capacity, s, t), u))
  {
    ExclusionKept(capacity, s, t);
    FifoKept(capacity, tasks, s, t);
    HonestKept(capacity, s, t);
    var mid := Step(capacity, s, t);
    assert Asleep(mid, u, Reaches(s.threads[t].pc));
    ExclusionKept(capacity, mid, u);
    FifoKept(capacity, tasks, mid, u);
    HonestKept(capacity, mid, u);
    WakingSignalKeeps(capacity, s, t, u);
  }

  /** A state in which nobody has anything to do: either no worker is left, or nothing is queued, every
      submitter is done, and the remaining workers rightly sleep. */
  predicate AtRest(s: State) {
    || (forall t | 0 <= t < |s.threads| :: IsWorker(s.threads[t].pc) ==> s.threads[t].pc == Ended)
    || (&& s.queue == []
        && forall t | 0 <= t < |s.threads| ::
             match s.threads[t].pc case GetSleep | Ended | Submitted => true case _ => false)
  }

  /** Nobody can move but by a spurious wake-up. */
  ghost predicate Still(s: State) { forall t: nat | t < |s.threads| :: !Active(s, t) }

  /** Without anybody under way, a worker asleep means an empty queue and a submitter asleep a full one. */
  lemma NotBothAsleep(capacity: nat, s: State)
    requires NoLostWakeup(capacity, s) && capacity > 0
    requires Sum(Looking, s.threads) == Sum(Announcing, s.threads) == Sum(Offering, s.threads)
        == Sum(Freeing, s.threads) == 0
    ensures (exists u :: 0 <= u < |s.threads| && s.threads[u].pc == GetSleep) ==>
              s.queue == [] && forall t | 0 <= t < |s.threads| :: s.threads[t].pc != PutSleep
  {
    if u :| 0 <= u < |s.threads| && s.threads[u].pc == GetSleep {
      SumAtLeastIdle(s, u);
      forall t | 0 <= t < |s.threads| ensures s.threads[t].pc != PutSleep {
        SumAtLeastIdle(s, t);
      }
    }
  }

  lemma NobodyForgotten(capacity: nat, s: State)
    requires Exclusion(capacity, s) && NoLostWakeup(capacity, s) && capacity > 0
    requires Still(s)
    ensures AtRest(s)
  {
    assert s.lock.Held? ==> Holds(s.threads[s.lock.thread].pc) && !Active(s, s.lock.thread);
    forall t | 0 <= t < |s.threads|
      ensures Looking(s.threads[t]) == Announcing(s.threads[t]) == Offering(s.threads[t]) == Freeing(s.threads[t]) == 0
      ensures match s.threads[t].pc case GetSleep | Ended | PutSleep | Submitted => true case _ => false
    {
      assert !Active(s, t);
    }
    SumBounds(Looking, s.threads, 0, 0);
    SumBounds(Announcing, s.threads, 0, 0);
    SumBounds(Offering, s.threads, 0, 0);
    SumBounds(Freeing, s.threads, 0, 0);
    NotBothAsleep(capacity, s);
  }

  /** At rest with a worker left, every task has been submitted, taken and executed, except the ones that told
      the other workers to end. */
  lemma AllServed(capacity: nat, tasks: seq<seq<Task>>, s: State, w: nat)
    requires Inv(capacity, tasks, s) && AtRest(s)
    requires w < |s.threads| && IsWorker(s.threads[w].pc) && s.threads[w].pc != Ended
    ensures Payload(s.taken) == Payload(s.submitted) && forall t | 0 <= t < |tasks| :: From(t, s.submitted) == tasks[t]
    ensures forall t: nat | t < |tasks| && s.threads[t].pc != Ended :: From(t, s.taken) == From(t, s.executed)
  {
    assert s.queue == [];
    forall t | 0 <= t < |tasks| ensures From(t, s.submitted) == tasks[t] {
      assert Sound(capacity, s.queue, s.threads[t]);
    }
  }

  /** In every state of every run with at least one queue slot, any number of workers and submitters,
      and spurious wake-ups: the tasks taken are a prefix of the tasks submitted, each submitter's tasks
      keep their order, and if nobody can move then no wake-up was lost, and all tasks were submitted and
      taken if a worker is left. */
  lemma EveryState(capacity: nat, tasks: seq<seq<Task>>, run: seq<State>, i: nat)
    requires capacity > 0 && Run(capacity, tasks, run) && i < |run|
    ensures Inv(capacity, tasks, run[i])
    ensures Payload(run[i].taken) <= Payload(run[i].submitted)
    ensures forall t: nat | t < |tasks| :: From(t, run[i].submitted) <= tasks[t]
    ensures forall t: nat | t < |tasks| :: From(t, run[i].executed) <= From(t, run[i].taken)
    ensures forall t: nat | t < |tasks| && run[i].threads[t].pc == Ended :: Mortal(tasks)
    ensures Still(run[i]) ==> AtRest(run[i]) && Served(tasks, run[i])
  {
    forall s | Init(tasks, s) ensures Inv(capacity, tasks, s) {
      InitInv(capacity, tasks, s);
    }
    forall s, s' | Inv(capacity, tasks, s) && Next(capacity, s, s') ensures Inv(capacity, tasks, s') {
      NextInv(capacity, tasks, s, s');
    }
    Invariance((s: State) => Init(tasks, s), (s: State, s': State) => Next(capacity, s, s'),
               (s: State) => Inv(capacity, tasks, s), run, i);
    Consequences(capacity, tasks, run[i]);
  }

  /** If a worker is left, every task has been submitted in order and taken, and each worker has executed what it
      took. */
  ghost predicate Served(tasks: seq<seq<Task>>, s: State) {
    (exists w | 0 <= w < |s.threads| :: IsWorker(s.threads[w].pc) && s.threads[w].pc != Ended) ==>
      && |s.threads| == |tasks| && Payload(s.taken) == Payload(s.submitted)
      && (forall t | 0 <= t < |tasks| :: From(t, s.submitted) == tasks[t])
      && forall t: nat | t < |tasks| && s.threads[t].pc != Ended :: From(t, s.taken) == From(t, s.executed)
  }

  lemma Consequences(capacity: nat, tasks: seq<seq<Task>>, s: State)
    requires capacity > 0 && Inv(capacity, tasks, s)
    ensures Payload(s.taken) <= Payload(s.submitted)
    ensures forall t: nat | t < |tasks| :: From(t, s.submitted) <= tasks[t]
    ensures forall t: nat | t < |tasks| :: From(t, s.executed) <= From(t, s.taken)
    ensures forall t: nat | t < |tasks| && s.threads[t].pc == Ended :: Mortal(tasks)
    ensures Still(s) ==> AtRest(s) && Served(tasks, s)
  {
    if w: nat :| w < |s.threads| && s.threads[w].pc == Ended {
      EndIsSubmitted(tasks, s, w);
    }
    if Still(s) {
      NobodyForgotten(capacity, s);
      if w: nat :| w < |s.threads| && IsWorker(s.threads[w].pc) && s.threads[w].pc != Ended {
        AllServed(capacity, tasks, s, w);
      }
    }
  }

  /** Without a task that tells a worker to end no worker ever does; so when nobody can move, and there is a worker,
      every task has been submitted in order, taken in that order, and executed by the worker that took it. */
  lemma AllExecuted(capacity: nat, tasks: seq<seq<Task>>, run: seq<State>)
    requires capacity > 0 && Run(capacity, tasks, run) && !Mortal(tasks)
    requires exists w: nat :: w < |run[0].threads| && IsWorker(run[0].threads[w].pc)
    requires Still(run[|run| - 1])
    ensures var s := run[|run| - 1];
            && |s.threads| == |tasks| && Payload(s.taken) == Payload(s.submitted)
            && forall t: nat | t < |tasks| ::
                 From(t, s.submitted) == tasks[t] && From(t, s.executed) == From(t, s.taken) && s.threads[t].pc != Ended
  {
    var w: nat :| w < |run[0].threads| && IsWorker(run[0].threads[w].pc);
    EveryState(capacity, tasks, run, |run| - 1);
    StaysWorker(capacity, tasks, run, |run| - 1, w);
    assert run[|run| - 1].threads[w].pc != Ended;
  }

  /** A thread keeps its kind. */
  lemma {:induction false} StaysWorker(capacity: nat, tasks: seq<seq<Task>>, run: seq<State>, i: nat, w: nat)
    requires Run(capacity, tasks, run) && i < |run| && w < |run[0].threads|
    ensures |run[i].threads| == |run[0].threads| && (IsWorker(run[i].threads[w].pc) <==> IsWorker(run[0].threads[w].pc))
  {
    if i > 0 {
      StaysWorker(capacity, tasks, run, i - 1, w);
      KindsKept(capacity, run[i - 1], run[i], w);
    }
  }

  lemma KindKept(capacity: nat, s: State, t: nat, w: nat)
    requires t < |s.threads| && w < |s.threads|
    ensures |Step(capacity, s, t).threads| == |s.threads|
    ensures IsWorker(Step(capacity, s, t).threads[w].pc) <==> IsWorker(s.threads[w].pc)
  {
  }

  lemma KindsKept(capacity: nat, s: State, s': State, w: nat)
    requires Next(capacity, s, s') && w < |s.threads|
    ensures |s'.threads| == |s.threads| && (IsWorker(s'.threads[w].pc) <==> IsWorker(s.threads[w].pc))
  {
    if t: nat :| QuietMove(capacity, s, s', t) {
      KindKept(capacity, s, t, w);
    } else if t: nat :| IdleSignal(capacity, s, s', t) {
      KindKept(capacity, s, t, w);
    } else if t: nat, u: nat :| WakingSignal(capacity, s, s', t, u) {
      KindKept(capacity, s, t, w);
      KindKept(capacity, Step(capacity, s, t), u, w);
    } else {
      var u: nat :| SpuriousWakeup(capacity, s, s', u);
      KindKept(capacity, s, u, w);
    }
  }

  // ---- Termination ----------------------------------------------------------------------------------

  /** What a thread has left to do. A task pays for the worker that takes it, a signal for the thread that
      it wakes. */
  function Work(c: Thread): int {
    17 * |c.todo|
    + match c.pc
      case GetLock => 4 case GetTest => 2 case GetSleep => 1 case GetRelock => 3 case Take => 1
      case GetUnlock => 9 case GetSignal => 8 case Execute => 5 case Ended => 0
      case PutNext => 4 case PutLock => 3 case PutTest => 2 case PutSleep => 1 case PutRelock => 3 case Put => 1
      case PutUnlock => 8 case PutSignal => 7 case Submitted => 0
  }

  ghost function WorkLeft(s: State): int { Sum(Work, s.threads) + 9 * |s.queue| }

  lemma StepWorks(capacity: nat, s: State, t: nat)
    requires t < |s.threads| && Exclusion(capacity, s)
    ensures var d, pc := WorkLeft(Step(capacity, s, t)) - WorkLeft(s), s.threads[t].pc;
            d <= if pc == GetSleep || pc == PutSleep then 2
                 else if Signals(pc) then -3
                 else if pc == Ended || pc == Submitted then 0
                 else -1
  {
    SumUpdate(Work, s.threads, t, Advance(capacity, s.queue, s.threads[t]));
    assert Sound(capacity, s.queue, s.threads[t]);
  }

  ghost predicate Awoken(capacity: nat, s: State, s': State) { exists u: nat :: SpuriousWakeup(capacity, s, s', u) }

  lemma WakingWorks(capacity: nat, s: State, t: nat, u: nat)
    requires Exclusion(capacity, s) && Active(s, t) && Signals(s.threads[t].pc)
    requires Asleep(s, u, Reaches(s.threads[t].pc))
    ensures WorkLeft(Step(capacity, Step(capacity, s, t), u)) < WorkLeft(s)
  {
    StepWorks(capacity, s, t);
    ExclusionKept(capacity, s, t);
    StepWorks(capacity, Step(capacity, s, t), u);
  }

  lemma WorkDrops(capacity: nat, s: State, s': State)
    requires Exclusion(capacity, s) && Next(capacity, s, s')
    ensures WorkLeft(s') < WorkLeft(s) + if Awoken(capacity, s, s') then 3 else 0
  {
    if t: nat :| QuietMove(capacity, s, s', t) {
      StepWorks(capacity, s, t);
    } else if t: nat :| IdleSignal(capacity, s, s', t) {
      StepWorks(capacity, s, t);
    } else if t: nat, u: nat :| WakingSignal(capacity, s, s', t, u) {
      WakingWorks(capacity, s, t, u);
    } else {
      var u: nat :| SpuriousWakeup(capacity, s, s', u);
      StepWorks(capacity, s, u);
    }
  }

  /** How many steps of a run are spurious wake-ups. */
  ghost function Spurious(capacity: nat, run: seq<State>): nat {
    if |run| <= 1 then 0
    else
      Spurious(capacity, run[..|run| - 1])
      + if Awoken(capacity, run[|run| - 2], run[|run| - 1]) then 1 else 0
  }

  function ToDo(tasks: seq<Task>): int { 4 + 17 * |tasks| }

  lemma {:induction false} WorkSpent(capacity: nat, tasks: seq<seq<Task>>, run: seq<State>)
    requires capacity > 0 && Run(capacity, tasks, run)
    ensures |run| - 1 + WorkLeft(run[|run| - 1]) <= Sum(ToDo, tasks) + 3 * Spurious(capacity, run)
  {
    if |run| == 1 {
      SumMatch(Work, run[0].threads, ToDo, tasks);
    } else {
      var before := run[..|run| - 1];
      RunShrinks((s: State) => Init(tasks, s), (s: State, s': State) => Next(capacity, s, s'), run);
      WorkSpent(capacity, tasks, before);
      StaysExclusive(capacity, tasks, before);
      WorkDrops(capacity, run[|run| - 2], run[|run| - 1]);
    }
  }

  lemma StaysExclusive(capacity: nat, tasks: seq<seq<Task>>, run: seq<State>)
    requires capacity > 0 && Run(capacity, tasks, run)
    ensures Exclusion(capacity, run[|run| - 1])
  {
    EveryState(capacity, tasks, run, |run| - 1);
  }

  lemma WorkRemains(s: State)
    ensures WorkLeft(s) >= 0
  {
    SumNonNegative(Work, s.threads);
  }

  /** Every run is no longer than the tasks and the spurious wake-ups allow. */
  lemma RunsEnd(capacity: nat, tasks: seq<seq<Task>>, run: seq<State>)
    requires capacity > 0 && Run(capacity, tasks, run)
    ensures |run| - 1 <= Sum(ToDo, tasks) + 3 * Spurious(capacity, run)
  {
    WorkSpent(capacity, tasks, run);
    WorkRemains(run[|run| - 1]);
  }
}
