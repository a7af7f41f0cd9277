/** Worker threads that count the set bits of the filter, word by word from the shared cursor. */
module BloomCounts {
  import opened Bitmaps
  import B = BloomRuns
  import opened Runs
  import opened Sums

  /** A thread of countOnes: it takes a word, counts its bits, and adds what is not 0 to totalOnes. */
  datatype Counter = Fetching | Counting(loc: nat) | Adding(z: nat) | Exited

  datatype State = State(nextLoc: nat, counters: seq<Counter>, total: int)

  /** The set bits of the words from lo to hi - 1. */
  ghost function OnesIn(c: B.Search, lo: int, hi: int): set<int> {
    set i | i in c.ones && lo * NUM_BITS <= i < hi * NUM_BITS
  }

  lemma OnesJoin(c: B.Search, k: nat)
    ensures |OnesIn(c, 0, k + 1)| == |OnesIn(c, 0, k)| + |OnesIn(c, k, k + 1)|
  {
    assert OnesIn(c, 0, k + 1) == OnesIn(c, 0, k) + OnesIn(c, k, k + 1);
  }

  ghost predicate Init(s: State) {
    s.nextLoc == 0 && s.total == 0 && forall t | 0 <= t < |s.counters| :: s.counters[t] == Fetching
  }

  ghost function Step(c: B.Search, s: State, t: nat): State
    requires t < |s.counters|
  {
    match s.counters[t]
    case Fetching =>
      if s.nextLoc < B.Words(c)
      then s.(nextLoc := s.nextLoc + 1, counters := s.counters[t := Counting(s.nextLoc)])
      else s.(counters := s.counters[t := Exited])
    case Counting(loc) =>
      var z := |OnesIn(c, loc, loc + 1)|;
      s.(counters := s.counters[t := if z > 0 then Adding(z) else Fetching])
    case Adding(z) => s.(counters := s.counters[t := Fetching], total := s.total + z)
    case Exited => s
  }

  ghost predicate Next(c: B.Search, s: State, s': State) {
    exists t: nat :: t < |s.counters| && s.counters[t] != Exited && s' == Step(c, s, t)
  }

  ghost predicate Run(c: B.Search, run: seq<State>) { IsRun(Init, (s: State, s': State) => Next(c, s, s'), run) }

  predicate AllExited(s: State) { |s.counters| > 0 && forall t | 0 <= t < |s.counters| :: s.counters[t] == Exited }

  // ---- The count ------------------------------------------------------------------------------------------

  /** What a thread has taken from the cursor and not yet added. */
  ghost function Pending(c: B.Search): Counter -> int {
    (k: Counter) => match k case Counting(loc) => |OnesIn(c, loc, loc + 1)| case Adding(z) => z case _ => 0
  }

  ghost predicate Inv(c: B.Search, s: State) {
    && s.total + Sum(Pending(c), s.counters) == |OnesIn(c, 0, s.nextLoc)|
    && (s.nextLoc == 0 || s.nextLoc <= B.Words(c))
    && (Exited in s.counters ==> s.nextLoc >= B.Words(c))
  }

  /** Every step keeps the account of the bits that have been taken. */
  lemma StepKeeps(c: B.Search, s: State, t: nat)
    requires Inv(c, s) && t < |s.counters|
    ensures Inv(c, Step(c, s, t))
  {
    var s' := Step(c, s, t);
    SumUpdate(Pending(c), s.counters, t, s'.counters[t]);
    OnesJoin(c, s.nextLoc);
  }

  /** When all threads have exited, totalOnes is the number of set bits, however they interleaved. */
  lemma EndOfRun(c: B.Search, run: seq<State>)
    requires Run(c, run) && AllExited(run[|run| - 1])
    ensures run[|run| - 1].total == |OnesIn(c, 0, B.Words(c))|
  {
    var s := run[|run| - 1];
    forall s | Init(s) ensures Inv(c, s) {
      SumBounds(Pending(c), s.counters, 0, 0);
      assert OnesIn(c, 0, 0) == {};
    }
    forall s, s' | Inv(c, s) && Next(c, s, s') ensures Inv(c, s') {
      var t: nat :| t < |s.counters| && s.counters[t] != Exited && s' == Step(c, s, t);
      StepKeeps(c, s, t);
    }
    Invariance(Init, (s: State, s': State) => Next(c, s, s'), (s: State) => Inv(c, s), run, |run| - 1);
    SumBounds(Pending(c), s.counters, 0, 0);
    assert s.counters[0] == Exited;
    if B.Words(c) < 0 {
      assert OnesIn(c, 0, s.nextLoc) == OnesIn(c, 0, B.Words(c)) == {};
    }
  }

  // ---- Termination -----------------------------------------------------------------------------------------

  function CounterWork(k: Counter): int {
    match k case Fetching => 1 case Counting(_) => 3 case Adding(_) => 2 case Exited => 0
  }

  ghost function WorkLeft(c: B.Search, s: State): int {
    3 * (if s.nextLoc < B.Words(c) then B.Words(c) - s.nextLoc else 0) + Sum(CounterWork, s.counters)
  }

  lemma WorkDrops(c: B.Search, s: State, t: nat)
    requires t < |s.counters| && s.counters[t] != Exited
    ensures WorkLeft(c, Step(c, s, t)) < WorkLeft(c, s)
  {
    SumUpdate(CounterWork, s.counters, t, Step(c, s, t).counters[t]);
  }

  lemma {:induction false} WorkSpent(c: B.Search, run: seq<State>, i: nat)
    requires Run(c, run) && i < |run|
    ensures i + WorkLeft(c, run[i]) <= WorkLeft(c, run[0])
  {
    if i > 0 {
      WorkSpent(c, run, i - 1);
      assert Next(c, run[i - 1], run[i]);
      var t: nat :| t < |run[i - 1].counters| && run[i - 1].counters[t] != Exited && run[i] == Step(c, run[i - 1], t);
      WorkDrops(c, run[i - 1], t);
    }
  }

  /** Some thread can go on until all have exited, and every run ends after at most three steps per word and
      one per thread. */
  lemma RunsEnd(c: B.Search, run: seq<State>, i: nat)
    requires Run(c, run) && i < |run|
    ensures i <= 3 * (if B.Words(c) > 0 then B.Words(c) else 0) + |run[0].counters|
    ensures (forall t | 0 <= t < |run[i].counters| :: run[i].counters[t] == Exited) || exists s' :: Next(c, run[i], s')
  {
    WorkSpent(c, run, i);
    SumNonNegative(CounterWork, run[i].counters);
    SumBounds(CounterWork, run[0].counters, 1, 1);
    if t: nat :| t < |run[i].counters| && run[i].counters[t] != Exited {
      assert Next(c, run[i], Step(c, run[i], t));
    }
  }

  lemma {:induction false} OneThread(c: B.Search, run: seq<State>) returns (whole: seq<State>)
    requires Run(c, run) && |run[|run| - 1].counters| == 1
    ensures Run(c, whole) && AllExited(whole[|whole| - 1])
    decreases WorkLeft(c, run[|run| - 1])
  {
    var s := run[|run| - 1];
    if s.counters[0] == Exited {
      whole := run;
    } else {
      WorkDrops(c, s, 0);
      SumNonNegative(CounterWork, s.counters);
      assert Next(c, s, Step(c, s, 0));
      RunGrows(Init, (s: State, s': State) => Next(c, s, s'), run, Step(c, s, 0));
      whole := OneThread(c, run + [Step(c, s, 0)]);
    }
  }

  lemma SomeRun(c: B.Search) returns (run: seq<State>)
    ensures Run(c, run) && AllExited(run[|run| - 1])
  {
    run := OneThread(c, [State(0, [Fetching], 0)]);
  }
}
